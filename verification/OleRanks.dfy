/**
 The distributed echo: partition rows over GF(2) that read no excluded coordinate keep every class on
 one rank, so the per-rank overlaps add up to the overlap of the whole sum.
 */
module OleRanks {
  import opened Complexes
  import opened Paulis
  import opened PauliSums
  import opened OleKernel
  import opened OleTrace
  import opened OleSums

  // ---- Partition rows ----

  /** One GF(2) row over the key coordinates `(x, z)`; the same shape as a key. */
  type KeyRow = Pauli

  /** `row_parity`: one bit of the matrix-vector product. */
  predicate RowParity(n: nat, row: KeyRow, p: Pauli)
    requires row.On(n) && p.On(n)
  {
    Popcount(Xor(And(p.x, row.x), And(p.z, row.z))) % 2 == 1
  }

  /** `partition_of`: row `i` of the product at bit `i`. */
  function PartitionOf(n: nat, rows: seq<KeyRow>, p: Pauli): nat
    requires p.On(n) && forall i :: 0 <= i < |rows| ==> rows[i].On(n)
  {
    if |rows| == 0 then 0
    else
      var k := |rows| - 1;
      PartitionOf(n, rows[..k], p) + (if RowParity(n, rows[k], p) then Pow2(k) else 0)
  }

  /** Bit `i` of the index is the parity of row `i`. */
  lemma {:induction false} PartitionBit(n: nat, rows: seq<KeyRow>, p: Pauli, i: nat)
    requires p.On(n) && i < |rows| && forall j :: 0 <= j < |rows| ==> rows[j].On(n)
    ensures PartitionOf(n, rows, p) / Pow2(i) % 2 == 1 <==> RowParity(n, rows[i], p)
  {
    hide RowParity, Pow2;
    var k := |rows| - 1;
    var low, bit := PartitionOf(n, rows[..k], p), Bit(RowParity(n, rows[k], p));
    PartitionBelow(n, rows[..k], p);
    if i == k {
      TopBit(low, bit, Pow2(k));
    } else {
      PartitionBit(n, rows[..k], p, i);
      PowSplit(i, k);
      LowBit(low, bit, Pow2(i), Pow2(k - i - 1));
    }
  }

  lemma TopBit(low: nat, bit: nat, w: nat)
    requires low < w && bit < 2
    ensures (low + if bit == 1 then w else 0) / w == bit
  {
  }

  lemma {:induction false} PowSplit(i: nat, k: nat)
    requires i < k
    ensures Pow2(k) == 2 * (Pow2(k - i - 1) * Pow2(i))
    decreases i
  {
    if i > 0 {
      PowSplit(i - 1, k - 1);
      assert Pow2(i) == 2 * Pow2(i - 1) && Pow2(k) == 2 * Pow2(k - 1);
      assert Pow2(k - i - 1) * (2 * Pow2(i - 1)) == 2 * (Pow2(k - i - 1) * Pow2(i - 1));
    } else {
      assert Pow2(0) == 1;
    }
  }

  lemma LowBit(low: nat, bit: nat, d: nat, m: nat)
    requires d > 0 && bit < 2
    ensures (low + if bit == 1 then 2 * (m * d) else 0) / d % 2 == low / d % 2
  {
    DivAdd(low, 2 * m, d);
    SameProduct(m, d);
  }

  lemma SameProduct(m: nat, d: nat)
    ensures 2 * (m * d) == (2 * m) * d
  {
  }

  lemma DivAdd(low: nat, m: nat, d: nat)
    requires d > 0
    ensures (low + m * d) / d == low / d + m
  {
    var q, r := low / d, low % d;
    assert low == d * q + r;
    assert low + m * d == d * (q + m) + r;
    DivOf(q + m, r, d);
  }

  lemma DivOf(q: nat, r: nat, d: nat)
    requires r < d
    ensures (d * q + r) / d == q
  {
    var n := d * q + r;
    var e, m := n / d, n % d;
    assert n == d * e + m;
    if e < q {
      Further(d, e, q);
    } else if q < e {
      Further(d, q, e);
    }
  }

  lemma Further(d: nat, e: nat, q: nat)
    requires e < q
    ensures d * e + d <= d * q
  {
    assert d * q == d * (e + 1) + d * (q - e - 1);
    NonnegativeProduct(d, q - e - 1);
  }

  lemma NonnegativeProduct(d: nat, k: nat)
    ensures d * k >= 0
  {
  }

  /** A row's parity is linear in the key, and on a single X or Z it reads that coordinate: this determines it. */
  lemma ParityLinear(n: nat, row: KeyRow, p: Pauli, q: Pauli)
    requires row.On(n) && p.On(n) && q.On(n)
    ensures RowParity(n, row, ProductKey(p, q)) == (RowParity(n, row, p) != RowParity(n, row, q))
  {
    hide Popcount;
    var a := Xor(And(p.x, row.x), And(p.z, row.z));
    var b := Xor(And(q.x, row.x), And(q.z, row.z));
    var r := ProductKey(p, q);
    assert Xor(And(r.x, row.x), And(r.z, row.z)) == Xor(a, b);
    PopcountXor(a, b);
  }

  lemma ParityUnit(n: nat, row: KeyRow, i: nat, p: Pauli)
    requires row.On(n) && i < n && p.On(n)
    ensures p == Pauli(NoBits(n)[i := true], NoBits(n)) ==> RowParity(n, row, p) == row.x[i]
    ensures p == Pauli(NoBits(n), NoBits(n)[i := true]) ==> RowParity(n, row, p) == row.z[i]
  {
    var a := Xor(And(p.x, row.x), And(p.z, row.z));
    if p == Pauli(NoBits(n)[i := true], NoBits(n)) {
      assert a == NoBits(n)[i := row.x[i]];
      OneBit(n, i, row.x[i]);
    }
    if p == Pauli(NoBits(n), NoBits(n)[i := true]) {
      assert a == NoBits(n)[i := row.z[i]];
      OneBit(n, i, row.z[i]);
    }
  }

  lemma {:induction false} OneBit(n: nat, i: nat, b: bool)
    requires i < n
    ensures Popcount(NoBits(n)[i := b]) == Bit(b)
  {
    var row := NoBits(n)[i := b];
    if i == 0 {
      assert row[1..] == NoBits(n - 1);
      PopcountNone(n - 1);
    } else {
      assert row[1..] == NoBits(n - 1)[i - 1 := b];
      OneBit(n - 1, i - 1, b);
    }
  }

  /** `Gf2Matrix::draw`: a candidate row with the excluded coordinates cleared. */
  function Cleared(row: KeyRow, excludeX: Row, excludeZ: Row): (r: KeyRow)
    requires row.On(|excludeX|) && |excludeX| == |excludeZ|
    ensures r.On(|excludeX|)
  {
    Pauli(AndNot(row.x, excludeX), AndNot(row.z, excludeZ))
  }

  function ClearedRows(n: nat, rows: seq<KeyRow>, excludeX: Row, excludeZ: Row): (r: seq<KeyRow>)
    requires |excludeX| == |excludeZ| == n && forall i :: 0 <= i < |rows| ==> rows[i].On(n)
    ensures |r| == |rows| && forall i :: 0 <= i < |r| ==> r[i].On(n) && r[i] == Cleared(rows[i], excludeX, excludeZ)
  {
    seq(|rows|, i requires 0 <= i < |rows| => Cleared(rows[i], excludeX, excludeZ))
  }

  /** Clearing coordinates of the rows is clearing them in the key: the index still reads everything that was not excluded. */
  lemma {:induction false} ClearedReads(n: nat, rows: seq<KeyRow>, excludeX: Row, excludeZ: Row, p: Pauli)
    requires |excludeX| == |excludeZ| == n && p.On(n) && forall i :: 0 <= i < |rows| ==> rows[i].On(n)
    ensures PartitionOf(n, ClearedRows(n, rows, excludeX, excludeZ), p)
         == PartitionOf(n, rows, Pauli(AndNot(p.x, excludeX), AndNot(p.z, excludeZ)))
  {
    if |rows| > 0 {
      hide RowParity;
      var k := |rows| - 1;
      assert ClearedRows(n, rows, excludeX, excludeZ)[..k] == ClearedRows(n, rows[..k], excludeX, excludeZ);
      ClearedReads(n, rows[..k], excludeX, excludeZ, p);
      ClearedParity(rows[k], excludeX, excludeZ, p);
    }
  }

  lemma ClearedParity(row: KeyRow, excludeX: Row, excludeZ: Row, p: Pauli)
    requires row.On(|excludeX|) && |excludeX| == |excludeZ| && p.On(|excludeX|)
    ensures RowParity(|excludeX|, Cleared(row, excludeX, excludeZ), p)
         == RowParity(|excludeX|, row, Pauli(AndNot(p.x, excludeX), AndNot(p.z, excludeZ)))
  {
    assert And(p.x, AndNot(row.x, excludeX)) == And(AndNot(p.x, excludeX), row.x);
    assert And(p.z, AndNot(row.z, excludeZ)) == And(AndNot(p.z, excludeZ), row.z);
  }

  /** Keys agreeing outside the exclusion have the same owner, whatever rows were drawn. */
  lemma {:induction false} SameOwner(n: nat, rows: seq<KeyRow>, excludeX: Row, excludeZ: Row, p: Pauli, q: Pauli)
    requires |excludeX| == |excludeZ| == n && p.On(n) && q.On(n)
    requires forall i :: 0 <= i < |rows| ==> rows[i].On(n)
    requires forall i :: 0 <= i < n ==> (excludeX[i] || p.x[i] == q.x[i]) && (excludeZ[i] || p.z[i] == q.z[i])
    ensures PartitionOf(n, ClearedRows(n, rows, excludeX, excludeZ), p)
         == PartitionOf(n, ClearedRows(n, rows, excludeX, excludeZ), q)
  {
    var cleared := ClearedRows(n, rows, excludeX, excludeZ);
    if |rows| > 0 {
      hide RowParity;
      var k := |rows| - 1;
      assert cleared[..k] == ClearedRows(n, rows[..k], excludeX, excludeZ);
      SameOwner(n, rows[..k], excludeX, excludeZ, p, q);
      SameParity(rows[k], excludeX, excludeZ, p, q);
    }
  }

  lemma SameParity(row: KeyRow, excludeX: Row, excludeZ: Row, p: Pauli, q: Pauli)
    requires row.On(|excludeX|) && |excludeX| == |excludeZ| && p.On(|excludeX|) && q.On(|excludeX|)
    requires forall i :: 0 <= i < |excludeX| ==>
               (excludeX[i] || p.x[i] == q.x[i]) && (excludeZ[i] || p.z[i] == q.z[i])
    ensures RowParity(|excludeX|, Cleared(row, excludeX, excludeZ), p) == RowParity(|excludeX|, Cleared(row, excludeX, excludeZ), q)
  {
    var r := Cleared(row, excludeX, excludeZ);
    assert And(p.x, r.x) == And(q.x, r.x);
    assert And(p.z, r.z) == And(q.z, r.z);
  }

  // ---- Shares ----

  /** The terms owned by rank `r`. */
  function Share(owner: Pauli -> nat, r: nat, ts: seq<Term>): seq<Term> {
    if |ts| == 0 then []
    else (if owner(ts[0].p) == r then [ts[0]] else []) + Share(owner, r, ts[1..])
  }

  /** The terms owned by the ranks below `r`. */
  function Below(owner: Pauli -> nat, r: nat, ts: seq<Term>): seq<Term> {
    if |ts| == 0 then []
    else (if owner(ts[0].p) < r then [ts[0]] else []) + Below(owner, r, ts[1..])
  }

  lemma {:induction false} ShareOwned(n: nat, owner: Pauli -> nat, r: nat, ts: seq<Term>)
    requires OnQubits(n, ts)
    ensures OnQubits(n, Share(owner, r, ts))
    ensures forall i :: 0 <= i < |Share(owner, r, ts)| ==> owner(Share(owner, r, ts)[i].p) == r
  {
    if |ts| > 0 {
      ShareOwned(n, owner, r, ts[1..]);
    }
  }

  lemma {:induction false} ShareKeys(owner: Pauli -> nat, r: nat, ts: seq<Term>, p: Pauli)
    requires !HasKey(ts, p)
    ensures !HasKey(Share(owner, r, ts), p)
  {
    if |ts| > 0 {
      assert ts[0].p != p;
      forall i | 0 <= i < |ts| - 1 ensures ts[1..][i].p != p {
        assert ts[i + 1].p != p;
      }
      ShareKeys(owner, r, ts[1..], p);
    }
  }

  lemma {:induction false} ShareDistinct(owner: Pauli -> nat, r: nat, ts: seq<Term>)
    requires Distinct(ts)
    ensures Distinct(Share(owner, r, ts))
  {
    if |ts| > 0 {
      ShareDistinct(owner, r, ts[1..]);
      forall i | 0 <= i < |ts| - 1 ensures ts[1..][i].p != ts[0].p {
        assert ts[1..][i] == ts[i + 1];
      }
      ShareKeys(owner, r, ts[1..], ts[0].p);
      DistinctCons(ts[0], Share(owner, r, ts[1..]));
      var none: seq<Term> := [];
      assert none + Share(owner, r, ts[1..]) == Share(owner, r, ts[1..]);
    }
  }

  lemma DistinctCons(t: Term, ts: seq<Term>)
    requires Distinct(ts) && !HasKey(ts, t.p)
    ensures Distinct([t] + ts)
  {
    var all := [t] + ts;
    forall i, j | 0 <= i < j < |all| ensures all[i].p != all[j].p {
      assert all[j] == ts[j - 1];
      if i > 0 {
        assert all[i] == ts[i - 1];
      }
    }
  }

  lemma ShareMembers(n: nat, owner: Pauli -> nat, r: nat, ts: seq<Term>)
    requires OnQubits(n, ts) && Distinct(ts)
    ensures OnQubits(n, Share(owner, r, ts)) && Distinct(Share(owner, r, ts))
    ensures forall i :: 0 <= i < |Share(owner, r, ts)| ==> owner(Share(owner, r, ts)[i].p) == r
  {
    hide Share, Distinct;
    ShareOwned(n, owner, r, ts);
    ShareDistinct(owner, r, ts);
  }

  lemma {:induction false} BelowMembers(n: nat, owner: Pauli -> nat, r: nat, ts: seq<Term>)
    requires OnQubits(n, ts)
    ensures OnQubits(n, Below(owner, r, ts))
    ensures forall i :: 0 <= i < |Below(owner, r, ts)| ==> owner(Below(owner, r, ts)[i].p) < r
    ensures r == 0 ==> Below(owner, r, ts) == []
    ensures (forall i :: 0 <= i < |ts| ==> owner(ts[i].p) < r) ==> Below(owner, r, ts) == ts
  {
    if |ts| > 0 {
      BelowMembers(n, owner, r, ts[1..]);
      if forall i :: 0 <= i < |ts| ==> owner(ts[i].p) < r {
        assert forall i :: 0 <= i < |ts| - 1 ==> ts[1..][i] == ts[i + 1];
        assert ts == [ts[0]] + ts[1..];
      }
    }
  }

  lemma {:induction false} BelowSplits(zAxis: bool, owner: Pauli -> nat, r: nat, ts: seq<Term>)
    ensures multiset(MembersOf(zAxis, Below(owner, r + 1, ts)))
         == multiset(MembersOf(zAxis, Below(owner, r, ts)) + MembersOf(zAxis, Share(owner, r, ts)))
  {
    if |ts| > 0 {
      BelowSplits(zAxis, owner, r, ts[1..]);
      var t := [ts[0]];
      MembersConcat(zAxis, t, Below(owner, r + 1, ts[1..]));
      MembersConcat(zAxis, t, Below(owner, r, ts[1..]));
      MembersConcat(zAxis, t, Share(owner, r, ts[1..]));
      var none: seq<Term> := [];
      assert none + Below(owner, r + 1, ts[1..]) == Below(owner, r + 1, ts[1..]);
      assert none + Below(owner, r, ts[1..]) == Below(owner, r, ts[1..]);
      assert none + Share(owner, r, ts[1..]) == Share(owner, r, ts[1..]);
    }
  }

  lemma MembersConcat(zAxis: bool, a: seq<Term>, b: seq<Term>)
    ensures MembersOf(zAxis, a + b) == MembersOf(zAxis, a) + MembersOf(zAxis, b)
  {
  }

  /** The echo of a sum of terms. */
  function Echo(v: Probe, mask: Row, ts: seq<Term>): Complex
    requires OnQubits(|mask|, ts)
  {
    PairSum(v, mask, MembersOf(v.zAxis, ts), MembersOf(v.zAxis, ts))
  }

  /** The sum of the echoes of ranks `0..ranks`. */
  function RankSum(v: Probe, mask: Row, owner: Pauli -> nat, ranks: nat, ts: seq<Term>): Complex
    requires OnQubits(|mask|, ts) && Distinct(ts)
  {
    if ranks == 0 then ZERO
    else
      ShareMembers(|mask|, owner, ranks - 1, ts);
      RankSum(v, mask, owner, ranks - 1, ts).Plus(Echo(v, mask, Share(owner, ranks - 1, ts)))
  }

  /** Strings of one class have one owner. */
  ghost predicate KeepsClasses(v: Probe, mask: Row, owner: Pauli -> nat) {
    forall p: Pauli, q: Pauli ::
      p.On(|mask|) && q.On(|mask|) && SameClass(mask, HalvesOf(v.zAxis, p), HalvesOf(v.zAxis, q)) ==> owner(p) == owner(q)
  }

  /** Strings with different owners do not mix. */
  ghost predicate Separates(v: Probe, mask: Row, owner: Pauli -> nat) {
    forall p: Pauli, q: Pauli :: p.On(|mask|) && q.On(|mask|) && owner(p) != owner(q) ==> Apart(v, mask, p, q)
  }

  predicate Apart(v: Probe, mask: Row, p: Pauli, q: Pauli)
    requires p.On(|mask|) && q.On(|mask|)
  {
    Kernel(v, mask, HalvesOf(v.zAxis, p), HalvesOf(v.zAxis, q)) == 0.0
  }

  lemma ClassesSeparate(v: Probe, mask: Row, owner: Pauli -> nat)
    requires KeepsClasses(v, mask, owner)
    ensures Separates(v, mask, owner)
  {
    hide Kernel, SameClass;
    forall p: Pauli, q: Pauli | p.On(|mask|) && q.On(|mask|) && owner(p) != owner(q) ensures Apart(v, mask, p, q) {
      KernelOffClass(v, mask, HalvesOf(v.zAxis, p), HalvesOf(v.zAxis, q));
    }
  }

  lemma SeparatedPair(v: Probe, mask: Row, owner: Pauli -> nat, p: Pauli, q: Pauli)
    requires Separates(v, mask, owner) && p.On(|mask|) && q.On(|mask|) && owner(p) != owner(q)
    ensures HalvesOf(v.zAxis, p).On(|mask|) && HalvesOf(v.zAxis, q).On(|mask|)
    ensures Kernel(v, mask, HalvesOf(v.zAxis, p), HalvesOf(v.zAxis, q)) == 0.0
  {
    hide Kernel;
    assert Apart(v, mask, p, q);
  }

  lemma NoCrossSum(v: Probe, mask: Row, owner: Pauli -> nat, low: seq<Term>, here: seq<Term>)
    requires OnQubits(|mask|, low) && OnQubits(|mask|, here) && Separates(v, mask, owner)
    requires forall i, j :: 0 <= i < |low| && 0 <= j < |here| ==> owner(low[i].p) != owner(here[j].p)
    ensures PairSum(v, mask, MembersOf(v.zAxis, low), MembersOf(v.zAxis, here)) == ZERO
  {
    hide Kernel, Separates, HalvesOf, PairSum;
    var ms, ns := MembersOf(v.zAxis, low), MembersOf(v.zAxis, here);
    MembersOnTerms(v.zAxis, |mask|, low); MembersOnTerms(v.zAxis, |mask|, here);
    forall i, j | 0 <= i < |ms| && 0 <= j < |ns| ensures Kernel(v, mask, ms[i].h, ns[j].h) == 0.0 {
      SeparatedPair(v, mask, owner, low[i].p, here[j].p);
    }
    PairSumZero(v, mask, ms, ns);
  }

  lemma HalvesLength(zAxis: bool, n: nat, p: Pauli)
    requires p.On(n)
    ensures HalvesOf(zAxis, p).On(n)
  {
  }

  /** Two groups that do not mix: the echo of their union is the sum of their echoes. */
  lemma TwoGroups(v: Probe, mask: Row, low: seq<Member>, here: seq<Member>, all: seq<Member>)
    requires MembersOn(|mask|, low) && MembersOn(|mask|, here) && MembersOn(|mask|, all)
    requires multiset(all) == multiset(low + here)
    requires PairSum(v, mask, low, here) == ZERO && PairSum(v, mask, here, low) == ZERO
    ensures PairSum(v, mask, all, all) == PairSum(v, mask, low, low).Plus(PairSum(v, mask, here, here))
  {
    hide PairSum, Complex.Plus;
    PairSumPermutation(v, mask, all, low + here);
    PairSumConcatLeft(v, mask, low, here, low + here);
    PairSumConcatRight(v, mask, low, low, here);
    PairSumConcatRight(v, mask, here, low, here);
    PlusZero(PairSum(v, mask, low, low)); PlusZero(PairSum(v, mask, here, here));
  }

  /** The ranks below `r + 1` hold the ranks below `r` and rank `r`, and the two do not mix. */
  lemma OneMoreRank(v: Probe, mask: Row, owner: Pauli -> nat, r: nat, ts: seq<Term>)
    requires OnQubits(|mask|, ts) && Distinct(ts) && Separates(v, mask, owner)
    ensures OnQubits(|mask|, Below(owner, r, ts)) && OnQubits(|mask|, Below(owner, r + 1, ts)) && OnQubits(|mask|, Share(owner, r, ts))
    ensures Echo(v, mask, Below(owner, r + 1, ts)) == Echo(v, mask, Below(owner, r, ts)).Plus(Echo(v, mask, Share(owner, r, ts)))
  {
    hide PairSum, Complex.Plus, Separates, Share, Below, HalvesOf, Distinct;
    ShareMembers(|mask|, owner, r, ts);
    BelowMembers(|mask|, owner, r, ts);
    BelowMembers(|mask|, owner, r + 1, ts);
    var low, here, all := Below(owner, r, ts), Share(owner, r, ts), Below(owner, r + 1, ts);
    NoCrossSum(v, mask, owner, low, here);
    NoCrossSum(v, mask, owner, here, low);
    BelowSplits(v.zAxis, owner, r, ts);
    MembersOnTerms(v.zAxis, |mask|, low); MembersOnTerms(v.zAxis, |mask|, here); MembersOnTerms(v.zAxis, |mask|, all);
    TwoGroups(v, mask, MembersOf(v.zAxis, low), MembersOf(v.zAxis, here), MembersOf(v.zAxis, all));
  }

  lemma {:induction false} RanksBelow(v: Probe, mask: Row, owner: Pauli -> nat, r: nat, ts: seq<Term>)
    requires OnQubits(|mask|, ts) && Distinct(ts) && Separates(v, mask, owner)
    ensures OnQubits(|mask|, Below(owner, r, ts))
    ensures RankSum(v, mask, owner, r, ts) == Echo(v, mask, Below(owner, r, ts))
  {
    hide PairSum, Complex.Plus, Separates, Share, Below, HalvesOf, Distinct;
    BelowMembers(|mask|, owner, r, ts);
    if r == 0 {
      NoTerms(v, mask);
    } else {
      RanksBelow(v, mask, owner, r - 1, ts);
      OneMoreRank(v, mask, owner, r - 1, ts);
    }
  }

  lemma NoTerms(v: Probe, mask: Row)
    ensures PairSum(v, mask, [], []) == ZERO
    ensures MembersOf(v.zAxis, []) == []
  {
  }

  lemma MembersOnTerms(zAxis: bool, n: nat, ts: seq<Term>)
    requires OnQubits(n, ts)
    ensures MembersOn(n, MembersOf(zAxis, ts))
  {
  }

  /** Whenever strings with different owners do not mix, the per-rank echoes sum to the echo of the whole sum. */
  lemma SeparatedAddUp(v: Probe, mask: Row, owner: Pauli -> nat, ranks: nat, ts: seq<Term>)
    requires OnQubits(|mask|, ts) && Distinct(ts) && Separates(v, mask, owner)
    requires forall i :: 0 <= i < |ts| ==> owner(ts[i].p) < ranks
    ensures RankSum(v, mask, owner, ranks, ts) == Echo(v, mask, ts)
  {
    hide PairSum, Complex.Plus, Separates, Distinct;
    RanksBelow(v, mask, owner, ranks, ts);
    BelowMembers(|mask|, owner, ranks, ts);
  }

  /** Whenever classes are never split across ranks, the per-rank echoes sum to the echo of the whole sum. */
  lemma RanksAddUp(v: Probe, mask: Row, owner: Pauli -> nat, ranks: nat, ts: seq<Term>)
    requires OnQubits(|mask|, ts) && Distinct(ts) && KeepsClasses(v, mask, owner)
    requires forall i :: 0 <= i < |ts| ==> owner(ts[i].p) < ranks
    ensures RankSum(v, mask, owner, ranks, ts) == Echo(v, mask, ts)
  {
    hide RankSum, Echo, KeepsClasses, Separates, Distinct;
    ClassesSeparate(v, mask, owner);
    SeparatedAddUp(v, mask, owner, ranks, ts);
  }

  /** The rank a matrix drawn with an exclusion assigns to a key. */
  function OwnerOf(n: nat, rows: seq<KeyRow>, excludeX: Row, excludeZ: Row): Pauli -> nat
    requires |excludeX| == |excludeZ| == n && forall i :: 0 <= i < |rows| ==> rows[i].On(n)
  {
    (p: Pauli) => if p.On(n) then PartitionOf(n, ClearedRows(n, rows, excludeX, excludeZ), p) else 0
  }

  /**
   The exclusion `run_b8.py` passes, all z-bits and the x-bits of the probe sites, never splits a class,
   whatever rows are drawn, and for either axis of the probe.
   */
  lemma ExclusionKeepsClasses(n: nat, rows: seq<KeyRow>, sites: seq<nat>, v: Probe)
    requires SitesOn(n, sites) && forall i :: 0 <= i < |rows| ==> rows[i].On(n)
    ensures KeepsClasses(v, MaskOf(n, sites), OwnerOf(n, rows, MaskOf(n, sites), AllBits(n)))
  {
    hide PartitionOf, ClearedRows, SameClass;
    var mask := MaskOf(n, sites);
    forall p: Pauli, q: Pauli | p.On(n) && q.On(n) && SameClass(mask, HalvesOf(v.zAxis, p), HalvesOf(v.zAxis, q))
      ensures OwnerOf(n, rows, mask, AllBits(n))(p) == OwnerOf(n, rows, mask, AllBits(n))(q)
    {
      ClassOffSites(n, mask, v.zAxis, p, q);
      SameOwner(n, rows, mask, AllBits(n), p, q);
    }
  }

  lemma ClassOffSites(n: nat, mask: Row, zAxis: bool, p: Pauli, q: Pauli)
    requires |mask| == n && p.On(n) && q.On(n) && SameClass(mask, HalvesOf(zAxis, p), HalvesOf(zAxis, q))
    ensures forall i :: 0 <= i < n ==> mask[i] || p.x[i] == q.x[i]
  {
    var a, b := HalvesOf(zAxis, p), HalvesOf(zAxis, q);
    forall i | 0 <= i < n ensures mask[i] || p.x[i] == q.x[i] {
      assert AndNot(a.flip, Moving(mask, a))[i] == AndNot(b.flip, Moving(mask, b))[i];
    }
  }

  lemma {:induction false} PartitionBelow(n: nat, rows: seq<KeyRow>, p: Pauli)
    requires p.On(n) && forall i :: 0 <= i < |rows| ==> rows[i].On(n)
    ensures PartitionOf(n, rows, p) < Pow2(|rows|)
  {
    hide RowParity;
    if |rows| > 0 {
      PartitionBelow(n, rows[..|rows| - 1], p);
    }
  }

  /** Under that exclusion the ranks' echoes add up to the echo of the whole sum, for every sum and every matrix. */
  lemma DrawnRanksAddUp(n: nat, rows: seq<KeyRow>, sites: seq<nat>, v: Probe, ts: seq<Term>)
    requires SitesOn(n, sites) && OnQubits(n, ts) && Distinct(ts) && forall i :: 0 <= i < |rows| ==> rows[i].On(n)
    ensures
      var mask := MaskOf(n, sites);
      RankSum(v, mask, OwnerOf(n, rows, mask, AllBits(n)), Pow2(|rows|), ts) == Echo(v, mask, ts)
  {
    hide RankSum, Echo, KeepsClasses, PartitionOf, Distinct;
    var mask := MaskOf(n, sites);
    ExclusionKeepsClasses(n, rows, sites, v);
    var owner := OwnerOf(n, rows, mask, AllBits(n));
    forall i | 0 <= i < |ts| ensures owner(ts[i].p) < Pow2(|rows|) {
      PartitionBelow(n, ClearedRows(n, rows, mask, AllBits(n)), ts[i].p);
    }
    RanksAddUp(v, mask, owner, Pow2(|rows|), ts);
  }

  function AllBits(n: nat): (r: Row)
    ensures |r| == n && forall i :: 0 <= i < n ==> r[i]
  {
    seq(n, _ => true)
  }
}
