/**
 `rotated_overlap_complex`: the class-sorted, chunked pair loop, proved equal to the naive sum over all
 ordered pairs.
 */
module OleOverlap {
  import opened Complexes
  import opened Paulis
  import opened PauliSums
  import opened OleKernel
  import opened OleTrace
  import opened OleSums

  datatype OleError = SiteTwice | SiteOutside | BadAxis

  datatype Outcome<T> = Ok(value: T) | Err(error: OleError)

  // ---- The site mask ----

  predicate NoRepeats(sites: seq<int>) {
    forall i, j :: 0 <= i < j < |sites| ==> sites[i] != sites[j]
  }

  lemma {:induction false} DistinctCount(sites: seq<int>)
    ensures |set q | q in sites| <= |sites|
    ensures |set q | q in sites| == |sites| <==> NoRepeats(sites)
  {
    if |sites| == 0 {
      assert (set q | q in sites) == {};
    } else {
      var k := |sites| - 1;
      var fewer := sites[..k];
      DistinctCount(fewer);
      assert sites == fewer + [sites[k]];
      assert (set q | q in sites) == (set q | q in fewer) + {sites[k]};
      if sites[k] in fewer {
        assert (set q | q in sites) == (set q | q in fewer);
        var i :| 0 <= i < k && fewer[i] == sites[k];
        assert sites[i] == sites[k];
      } else {
        assert NoRepeats(sites) <==> NoRepeats(fewer) by {
          forall i, j | NoRepeats(fewer) && 0 <= i < j < |sites| ensures sites[i] != sites[j] {
            if j == k {
              assert fewer[i] in fewer;
            } else {
              assert fewer[i] != fewer[j];
            }
          }
          assert NoRepeats(sites) ==> NoRepeats(fewer);
        }
      }
    }
  }

  /** `_site_mask`: a repeated site is refused first, then one outside the register. */
  method SiteMask(sites: seq<int>, n: nat) returns (r: Outcome<Row>)
    ensures r == Err(SiteTwice) <==> !NoRepeats(sites)
    ensures r == Err(SiteOutside) <==> NoRepeats(sites) && exists i :: 0 <= i < |sites| && !(0 <= sites[i] < n)
    ensures r.Err? ==> r.error != BadAxis
    ensures r.Ok? ==> |r.value| == n && forall q :: 0 <= q < n ==> r.value[q] == (q in sites)
  {
    DistinctCount(sites);
    if |set q | q in sites| != |sites| {
      return Err(SiteTwice);
    }
    var mask := new bool[n](_ => false);
    for i := 0 to |sites|
      invariant forall j :: 0 <= j < i ==> 0 <= sites[j] < n
      invariant forall q :: 0 <= q < n ==> mask[q] == (q in sites[..i])
    {
      var q := sites[i];
      if !(0 <= q < n) {
        return Err(SiteOutside);
      }
      mask[q] := true;
      assert sites[..i + 1] == sites[..i] + [q];
    }
    assert sites[..|sites|] == sites;
    return Ok(mask[..]);
  }

  lemma {:induction false} PopcountSet(a: Row, q: nat)
    requires q < |a| && !a[q]
    ensures Popcount(a[q := true]) == Popcount(a) + 1
  {
    if q > 0 {
      assert a[q := true][1..] == a[1..][q - 1 := true];
      PopcountSet(a[1..], q - 1);
    } else {
      assert a[q := true][1..] == a[1..];
    }
  }

  /** A mask has as many bits as there are sites. */
  lemma {:induction false} MaskWeight(n: nat, sites: seq<nat>)
    requires SitesOn(n, sites)
    ensures Popcount(MaskOf(n, sites)) == |sites|
  {
    hide MaskOf, Popcount;
    if |sites| == 0 {
      MaskNone(n, sites);
      PopcountNone(n);
    } else {
      var k := |sites| - 1;
      assert sites == sites[..k] + [sites[k]];
      MaskWeight(n, sites[..k]);
      MaskStep(n, sites[..k], sites[k]);
      PopcountSet(MaskOf(n, sites[..k]), sites[k]);
    }
  }

  // ---- Sorting into classes ----

  /** The row a class is sorted by. */
  function KeyOf(mask: Row, m: Member): (r: Row)
    requires m.h.On(|mask|)
    ensures |r| == 2 * |mask|
  {
    m.h.sel + AndNot(m.h.flip, Moving(mask, m.h))
  }

  lemma KeyIsClass(mask: Row, a: Member, b: Member)
    requires a.h.On(|mask|) && b.h.On(|mask|)
    ensures KeyOf(mask, a) == KeyOf(mask, b) <==> SameClass(mask, a.h, b.h)
  {
    var n := |mask|;
    assert KeyOf(mask, a)[..n] == a.h.sel && KeyOf(mask, b)[..n] == b.h.sel;
    assert KeyOf(mask, a)[n..] == AndNot(a.h.flip, Moving(mask, a.h));
    assert KeyOf(mask, b)[n..] == AndNot(b.h.flip, Moving(mask, b.h));
  }

  predicate LexLeq(a: Row, b: Row)
    requires |a| == |b|
  {
    |a| == 0 || (!a[0] && b[0]) || (a[0] == b[0] && LexLeq(a[1..], b[1..]))
  }

  lemma {:induction false} LexTotal(a: Row, b: Row)
    requires |a| == |b|
    ensures LexLeq(a, b) || LexLeq(b, a)
  {
    if |a| > 0 {
      LexTotal(a[1..], b[1..]);
    }
  }

  lemma {:induction false} LexAntisymmetric(a: Row, b: Row)
    requires |a| == |b| && LexLeq(a, b) && LexLeq(b, a)
    ensures a == b
  {
    if |a| > 0 {
      LexAntisymmetric(a[1..], b[1..]);
      HeadTail(a, b);
    }
  }

  lemma {:induction false} LexTransitive(a: Row, b: Row, c: Row)
    requires |a| == |b| == |c| && LexLeq(a, b) && LexLeq(b, c)
    ensures LexLeq(a, c)
  {
    if |a| > 0 && a[0] == b[0] && b[0] == c[0] {
      LexTransitive(a[1..], b[1..], c[1..]);
    }
  }

  predicate SortedByKey(mask: Row, ms: seq<Member>)
    requires MembersOn(|mask|, ms)
  {
    forall i, j :: 0 <= i < j < |ms| ==> LexLeq(KeyOf(mask, ms[i]), KeyOf(mask, ms[j]))
  }

  function Insert(mask: Row, m: Member, ms: seq<Member>): seq<Member>
    requires m.h.On(|mask|) && MembersOn(|mask|, ms)
  {
    if |ms| == 0 || LexLeq(KeyOf(mask, m), KeyOf(mask, ms[0])) then [m] + ms
    else [ms[0]] + Insert(mask, m, ms[1..])
  }

  /** The order `np.lexsort` puts the rows in. */
  function Lexsort(mask: Row, ms: seq<Member>): (r: seq<Member>)
    requires MembersOn(|mask|, ms)
    ensures MembersOn(|mask|, r) && multiset(r) == multiset(ms) && |r| == |ms|
    ensures SortedByKey(mask, r)
  {
    if |ms| == 0 then []
    else
      var rest := Lexsort(mask, ms[1..]);
      InsertSorted(mask, ms[0], rest);
      assert ms == [ms[0]] + ms[1..];
      Insert(mask, ms[0], rest)
  }

  lemma {:induction false} InsertContents(mask: Row, m: Member, ms: seq<Member>)
    requires m.h.On(|mask|) && MembersOn(|mask|, ms)
    ensures MembersOn(|mask|, Insert(mask, m, ms)) && |Insert(mask, m, ms)| == |ms| + 1
    ensures multiset(Insert(mask, m, ms)) == multiset{m} + multiset(ms)
  {
    hide LexLeq, KeyOf;
    if |ms| > 0 {
      InsertContents(mask, m, ms[1..]);
      assert ms == [ms[0]] + ms[1..];
    }
  }

  lemma {:induction false} InsertSorted(mask: Row, m: Member, ms: seq<Member>)
    requires m.h.On(|mask|) && MembersOn(|mask|, ms) && SortedByKey(mask, ms)
    ensures MembersOn(|mask|, Insert(mask, m, ms)) && |Insert(mask, m, ms)| == |ms| + 1
    ensures multiset(Insert(mask, m, ms)) == multiset{m} + multiset(ms)
    ensures SortedByKey(mask, Insert(mask, m, ms))
  {
    hide LexLeq, KeyOf;
    InsertContents(mask, m, ms);
    var r := Insert(mask, m, ms);
    if |ms| == 0 {
    } else if LexLeq(KeyOf(mask, m), KeyOf(mask, ms[0])) {
      forall j | 0 < j < |r| ensures LexLeq(KeyOf(mask, m), KeyOf(mask, r[j])) {
        if j > 1 {
          LexTransitive(KeyOf(mask, m), KeyOf(mask, ms[0]), KeyOf(mask, ms[j - 1]));
        }
      }
    } else {
      var rest := Insert(mask, m, ms[1..]);
      InsertSorted(mask, m, ms[1..]);
      InsertedAbove(mask, m, ms);
      forall i, j | 0 <= i < j < |r| ensures LexLeq(KeyOf(mask, r[i]), KeyOf(mask, r[j])) {
        if i > 0 {
          assert r[i] == rest[i - 1] && r[j] == rest[j - 1];
        }
      }
    }
  }

  lemma InsertedAbove(mask: Row, m: Member, ms: seq<Member>)
    requires m.h.On(|mask|) && MembersOn(|mask|, ms) && SortedByKey(mask, ms) && |ms| > 0
    requires !LexLeq(KeyOf(mask, m), KeyOf(mask, ms[0]))
    ensures MembersOn(|mask|, Insert(mask, m, ms[1..]))
    ensures forall j :: 0 <= j < |Insert(mask, m, ms[1..])| ==>
              LexLeq(KeyOf(mask, ms[0]), KeyOf(mask, Insert(mask, m, ms[1..])[j]))
  {
    hide LexLeq, KeyOf, Insert;
    var rest := Insert(mask, m, ms[1..]);
    InsertContents(mask, m, ms[1..]);
    LexTotal(KeyOf(mask, m), KeyOf(mask, ms[0]));
    forall j | 0 <= j < |rest| ensures LexLeq(KeyOf(mask, ms[0]), KeyOf(mask, rest[j])) {
      assert rest[j] in multiset(rest);
      if rest[j] != m {
        assert rest[j] in ms[1..];
        var i :| 0 <= i < |ms| - 1 && ms[1..][i] == rest[j];
        assert ms[i + 1] == rest[j];
      }
    }
  }

  // ---- Runs of equal keys ----

  /** `[s, s + z)` is the maximal run of equal keys around `i`. */
  predicate RunAt(keys: seq<Row>, i: nat, s: nat, z: nat) {
    && s <= i < s + z <= |keys|
    && (forall j :: s <= j < s + z ==> keys[j] == keys[s])
    && (s == 0 || keys[s - 1] != keys[s])
    && (s + z == |keys| || keys[s + z] != keys[s])
  }

  function EndOf(starts: seq<nat>, len: nat, j: nat): nat
    requires j < |starts|
  {
    if j + 1 < |starts| then starts[j + 1] else len
  }

  /** `[s, e)` holds one key, and a different one precedes it. */
  predicate ClassAt(keys: seq<Row>, s: nat, e: nat) {
    && s < e <= |keys|
    && (forall t :: s <= t < e ==> keys[t] == keys[s])
    && (s > 0 ==> keys[s - 1] != keys[s])
  }

  /** `starts` lists the class boundaries of the first `n` keys. */
  predicate StartsOf(keys: seq<Row>, starts: seq<nat>, n: nat)
    requires n <= |keys|
  {
    && (|starts| == 0 <==> n == 0)
    && (|starts| > 0 ==> starts[0] == 0)
    && (forall j :: 0 <= j < |starts| ==> EntryAt(keys, starts, n, j))
  }

  predicate EntryAt(keys: seq<Row>, starts: seq<nat>, n: nat, j: nat)
    requires j < |starts|
  {
    EndOf(starts, n, j) <= n && ClassAt(keys, starts[j], EndOf(starts, n, j))
  }

  lemma StartsNew(keys: seq<Row>, starts: seq<nat>, n: nat)
    requires n < |keys| && StartsOf(keys, starts, n) && (n == 0 || keys[n] != keys[n - 1])
    ensures StartsOf(keys, starts + [n], n + 1)
  {
    var r := starts + [n];
    NewClass(keys, n);
    hide ClassAt;
    var m := n + 1;
    forall j | 0 <= j < |r| ensures EntryAt(keys, r, m, j) {
      if j < |starts| {
        assert EntryAt(keys, starts, n, j);
        assert EndOf(r, n + 1, j) == EndOf(starts, n, j);
      }
    }
  }

  lemma NewClass(keys: seq<Row>, n: nat)
    requires n < |keys| && (n == 0 || keys[n] != keys[n - 1])
    ensures ClassAt(keys, n, n + 1)
  {
  }

  lemma LongerClass(keys: seq<Row>, s: nat, n: nat)
    requires n < |keys| && ClassAt(keys, s, n) && keys[n] == keys[n - 1]
    ensures ClassAt(keys, s, n + 1)
  {
    assert keys[n - 1] == keys[s];
    forall t | s <= t < n + 1 ensures keys[t] == keys[s] {
    }
  }

  lemma StartsSame(keys: seq<Row>, starts: seq<nat>, n: nat)
    requires 0 < n < |keys| && StartsOf(keys, starts, n) && keys[n] == keys[n - 1]
    ensures StartsOf(keys, starts, n + 1)
  {
    hide ClassAt;
    var last := |starts| - 1;
    assert EntryAt(keys, starts, n, last);
    LongerClass(keys, starts[last], n);
    var m := n + 1;
    forall j | 0 <= j < |starts| ensures EntryAt(keys, starts, m, j) {
      assert EntryAt(keys, starts, n, j);
      if j < last {
        assert EndOf(starts, n + 1, j) == EndOf(starts, n, j);
      } else {
        assert EndOf(starts, n + 1, j) == n + 1;
      }
    }
  }

  lemma StartsRuns(keys: seq<Row>, starts: seq<nat>, j: nat)
    requires StartsOf(keys, starts, |keys|) && j < |starts|
    ensures starts[j] < EndOf(starts, |keys|, j)
    ensures RunAt(keys, starts[j], starts[j], EndOf(starts, |keys|, j) - starts[j])
  {
    var e := EndOf(starts, |keys|, j);
    assert EntryAt(keys, starts, |keys|, j);
    if e < |keys| {
      assert EntryAt(keys, starts, |keys|, j + 1);
      assert keys[e - 1] == keys[starts[j]];
    }
  }

  /** The indices where a new class starts. */
  method ClassStarts(keys: seq<Row>) returns (starts: seq<nat>)
    ensures StartsOf(keys, starts, |keys|)
  {
    starts := [];
    for i := 0 to |keys|
      invariant StartsOf(keys, starts, i)
    {
      hide StartsOf;
      if i == 0 || keys[i] != keys[i - 1] {
        StartsNew(keys, starts, i);
        starts := starts + [i];
      } else {
        StartsSame(keys, starts, i);
      }
    }
  }

  /** `member_start` and `member_size`: every row's class run. */
  method ClassRuns(keys: seq<Row>) returns (start: seq<nat>, size: seq<nat>)
    ensures |start| == |keys| == |size|
    ensures forall i :: 0 <= i < |keys| ==> RunAt(keys, i, start[i], size[i])
  {
    hide StartsOf, RunAt;
    var starts := ClassStarts(keys);
    StartsFirst(keys, starts);
    start, size := [], [];
    for j := 0 to |starts|
      invariant |start| == |size| == if j < |starts| then starts[j] else |keys|
      invariant forall i :: 0 <= i < |start| ==> RunAt(keys, i, start[i], size[i])
    {
      StartsRuns(keys, starts, j);
      var z := EndOf(starts, |keys|, j) - starts[j];
      for o := 0 to z
        invariant |start| == |size| == starts[j] + o
        invariant forall i :: 0 <= i < |start| ==> RunAt(keys, i, start[i], size[i])
      {
        RunMember(keys, starts[j], z, |start|);
        start, size := start + [starts[j]], size + [z];
      }
    }
  }

  lemma StartsFirst(keys: seq<Row>, starts: seq<nat>)
    requires StartsOf(keys, starts, |keys|)
    ensures |starts| == 0 ==> |keys| == 0
    ensures |starts| > 0 ==> starts[0] == 0
  {
  }

  lemma RunMember(keys: seq<Row>, s: nat, z: nat, i: nat)
    requires RunAt(keys, s, s, z) && s <= i < s + z
    ensures RunAt(keys, i, s, z)
  {
  }

  // ---- The columns of a chunk ----

  function Total(counts: seq<nat>): nat {
    if |counts| == 0 then 0 else Total(counts[..|counts| - 1]) + counts[|counts| - 1]
  }

  /** `np.cumsum`. */
  function CumSum(counts: seq<nat>): (r: seq<nat>)
    ensures |r| == |counts|
  {
    if |counts| == 0 then [] else CumSum(counts[..|counts| - 1]) + [Total(counts)]
  }

  function Copies(x: nat, m: nat): (r: seq<nat>)
    ensures |r| == m && forall i :: 0 <= i < m ==> r[i] == x
  {
    seq(m, _ => x)
  }

  /** `np.repeat`. */
  function Repeat(vals: seq<nat>, counts: seq<nat>): (r: seq<nat>)
    requires |vals| == |counts|
    ensures |r| == Total(counts)
  {
    if |vals| == 0 then []
    else Repeat(vals[..|vals| - 1], counts[..|vals| - 1]) + Copies(vals[|vals| - 1], counts[|vals| - 1])
  }

  /** Where each row's pairs begin: `cumsum(counts) - counts`. */
  function Begins(counts: seq<nat>): (r: seq<nat>)
    ensures |r| == |counts|
  {
    if |counts| == 0 then [] else Begins(counts[..|counts| - 1]) + [Total(counts[..|counts| - 1])]
  }

  lemma {:induction false} BeginsIsShiftedCumSum(counts: seq<nat>)
    ensures forall i :: 0 <= i < |counts| ==> Begins(counts)[i] + counts[i] == CumSum(counts)[i]
  {
    if |counts| > 0 {
      BeginsIsShiftedCumSum(counts[..|counts| - 1]);
    }
  }

  function Minus(a: seq<nat>, b: seq<nat>): (r: seq<nat>)
    requires |a| == |b| && forall i :: 0 <= i < |a| ==> a[i] >= b[i]
    ensures |r| == |a| && forall i :: 0 <= i < |a| ==> r[i] == a[i] - b[i]
  {
    seq(|a|, i requires 0 <= i < |a| => a[i] - b[i])
  }

  function Range(lo: nat, hi: nat): (r: seq<nat>)
    requires lo <= hi
    ensures |r| == hi - lo && forall i :: 0 <= i < hi - lo ==> r[i] == lo + i
  {
    seq(hi - lo, i => lo + i)
  }

  /** The pairs of one row with its class `[s, s + z)`. */
  function RowPairs(p: nat, s: nat, z: nat): (r: seq<(nat, nat)>)
    ensures |r| == z && forall o :: 0 <= o < z ==> r[o] == (p, s + o)
  {
    seq(z, o => (p, s + o))
  }

  /** The pairs `(p, q)` of rows `lo..hi`, row by row over each row's class. */
  function Pairs(start: seq<nat>, size: seq<nat>, lo: nat, hi: nat): seq<(nat, nat)>
    requires lo <= hi <= |start| == |size|
  {
    if lo == hi then []
    else Pairs(start, size, lo, hi - 1) + RowPairs(hi - 1, start[hi - 1], size[hi - 1])
  }

  /** Columns `p` and `b` spell the pairs `(p[t], start[p[t]] + t - b[t])`. */
  predicate Aligned(start: seq<nat>, lo: nat, hi: nat, p: seq<nat>, b: seq<nat>, pairs: seq<(nat, nat)>)
    requires hi <= |start|
  {
    && |p| == |b| == |pairs|
    && forall t :: 0 <= t < |p| ==> b[t] <= t && lo <= p[t] < hi && pairs[t] == (p[t], start[p[t]] + (t - b[t]))
  }

  lemma AlignedAppend(start: seq<nat>, lo: nat, k: nat, p: seq<nat>, b: seq<nat>, pairs: seq<(nat, nat)>, z: nat)
    requires lo <= k < |start| && Aligned(start, lo, k, p, b, pairs)
    ensures Aligned(start, lo, k + 1, p + Copies(k, z), b + Copies(|p|, z), pairs + RowPairs(k, start[k], z))
  {
    hide Copies, RowPairs;
  }

  /** The vectorized index arithmetic enumerates exactly those pairs. */
  lemma {:induction false} ColumnsArePairs(start: seq<nat>, size: seq<nat>, lo: nat, hi: nat)
    requires lo <= hi <= |start| == |size|
    ensures Aligned(start, lo, hi, Repeat(Range(lo, hi), size[lo..hi]),
                    Repeat(Begins(size[lo..hi]), size[lo..hi]), Pairs(start, size, lo, hi))
  {
    hide Repeat, Begins, Copies, RowPairs;
    if lo == hi {
      RepeatNone(Range(lo, hi), size[lo..hi]); RepeatNone(Begins(size[lo..hi]), size[lo..hi]);
    } else {
      hide Aligned;
      var k := hi - 1;
      ColumnsArePairs(start, size, lo, k);
      var counts, fewer := size[lo..hi], size[lo..k];
      assert counts == fewer + [size[k]];
      assert Range(lo, hi) == Range(lo, k) + [k];
      RepeatSnoc(Range(lo, k), fewer, k, size[k]);
      BeginsSnoc(fewer, size[k]);
      RepeatSnoc(Begins(fewer), fewer, Total(fewer), size[k]);
      AlignedAppend(start, lo, k, Repeat(Range(lo, k), fewer), Repeat(Begins(fewer), fewer), Pairs(start, size, lo, k), size[k]);
    }
  }

  lemma RepeatNone(vals: seq<nat>, counts: seq<nat>)
    requires |vals| == |counts| == 0
    ensures Repeat(vals, counts) == []
  {
  }

  lemma RepeatSnoc(vals: seq<nat>, counts: seq<nat>, x: nat, m: nat)
    requires |vals| == |counts|
    ensures Repeat(vals + [x], counts + [m]) == Repeat(vals, counts) + Copies(x, m)
  {
    assert (vals + [x])[..|vals|] == vals && (counts + [m])[..|vals|] == counts;
  }

  lemma BeginsSnoc(counts: seq<nat>, m: nat)
    ensures Begins(counts + [m]) == Begins(counts) + [Total(counts)]
  {
    assert (counts + [m])[..|counts|] == counts;
  }

  // ---- The sum over a list of index pairs ----

  predicate PairsOn(m: nat, pairs: seq<(nat, nat)>) {
    forall t :: 0 <= t < |pairs| ==> pairs[t].0 < m && pairs[t].1 < m
  }

  function SumPairs(v: Probe, mask: Row, ms: seq<Member>, pairs: seq<(nat, nat)>): Complex
    requires MembersOn(|mask|, ms) && PairsOn(|ms|, pairs)
  {
    if |pairs| == 0 then ZERO
    else SumPairs(v, mask, ms, pairs[..|pairs| - 1]).Plus(
           PairWeight(v, mask, ms[pairs[|pairs| - 1].0], ms[pairs[|pairs| - 1].1]))
  }

  lemma {:induction false} SumPairsConcat(v: Probe, mask: Row, ms: seq<Member>, xs: seq<(nat, nat)>, ys: seq<(nat, nat)>)
    requires MembersOn(|mask|, ms) && PairsOn(|ms|, xs) && PairsOn(|ms|, ys)
    ensures PairsOn(|ms|, xs + ys)
    ensures SumPairs(v, mask, ms, xs + ys) == SumPairs(v, mask, ms, xs).Plus(SumPairs(v, mask, ms, ys))
  {
    hide PairWeight, Complex.Plus;
    if |ys| == 0 {
      assert xs + ys == xs;
      PlusZero(SumPairs(v, mask, ms, xs));
    } else {
      var k := |ys| - 1;
      assert (xs + ys)[..|xs + ys| - 1] == xs + ys[..k];
      SumPairsConcat(v, mask, ms, xs, ys[..k]);
      PlusAssoc(SumPairs(v, mask, ms, xs), SumPairs(v, mask, ms, ys[..k]), PairWeight(v, mask, ms[ys[k].0], ms[ys[k].1]));
    }
  }

  /** One row's pairs sum to a piece of the naive row. */
  lemma {:induction false} RowOfPairs(v: Probe, mask: Row, ms: seq<Member>, p: nat, s: nat, z: nat)
    requires MembersOn(|mask|, ms) && p < |ms| && s + z <= |ms|
    ensures PairsOn(|ms|, RowPairs(p, s, z))
    ensures SumPairs(v, mask, ms, RowPairs(p, s, z)) == RowSum(v, mask, ms[p], ms[s..s + z])
  {
    hide PairWeight, Complex.Plus;
    if z > 0 {
      RowOfPairs(v, mask, ms, p, s, z - 1);
      assert RowPairs(p, s, z)[..z - 1] == RowPairs(p, s, z - 1);
      assert ms[s..s + z] == ms[s..s + z - 1] + [ms[s + z - 1]];
      RowSumConcat(v, mask, ms[p], ms[s..s + z - 1], [ms[s + z - 1]]);
      PlusZero(PairWeight(v, mask, ms[p], ms[s + z - 1]));
    }
  }

  /** Restricting a row to its class run loses nothing: every other pair has kernel zero. */
  lemma RowIsClassRow(v: Probe, mask: Row, ms: seq<Member>, p: nat, s: nat, z: nat)
    requires MembersOn(|mask|, ms) && SortedByKey(mask, ms)
    requires RunAt(Keys(mask, ms), p, s, z)
    ensures RowSum(v, mask, ms[p], ms[s..s + z]) == RowSum(v, mask, ms[p], ms)
  {
    hide RowSum, Complex.Plus, Kernel, KeyOf, LexLeq, SameClass;
    var e := s + z;
    var a := ms[p];
    assert ms == ms[..s] + ms[s..e] + ms[e..];
    RowSumConcat(v, mask, a, ms[..s] + ms[s..e], ms[e..]);
    RowSumConcat(v, mask, a, ms[..s], ms[s..e]);
    forall i | 0 <= i < s || e <= i < |ms| ensures Kernel(v, mask, a.h, ms[i].h) == 0.0 {
      OutsideRun(mask, ms, p, s, z, i);
      KeyIsClass(mask, a, ms[i]);
      KernelOffClass(v, mask, a.h, ms[i].h);
    }
    RowSumZero(v, mask, a, ms[..s]);
    RowSumZero(v, mask, a, ms[e..]);
    PlusZero(RowSum(v, mask, a, ms[s..e]));
  }

  function Keys(mask: Row, ms: seq<Member>): (r: seq<Row>)
    requires MembersOn(|mask|, ms)
    ensures |r| == |ms| && forall i :: 0 <= i < |ms| ==> r[i] == KeyOf(mask, ms[i])
  {
    seq(|ms|, i requires 0 <= i < |ms| => KeyOf(mask, ms[i]))
  }

  /** In a sorted list a key never returns after its run. */
  lemma OutsideRun(mask: Row, ms: seq<Member>, p: nat, s: nat, z: nat, i: nat)
    requires MembersOn(|mask|, ms) && SortedByKey(mask, ms) && RunAt(Keys(mask, ms), p, s, z)
    requires i < s || s + z <= i < |ms|
    ensures KeyOf(mask, ms[p]) != KeyOf(mask, ms[i])
  {
    hide KeyOf, LexLeq;
    var keys := Keys(mask, ms);
    if KeyOf(mask, ms[p]) == KeyOf(mask, ms[i]) {
      if i < s {
        Sandwich(mask, ms, i, s - 1, s);
      } else {
        Sandwich(mask, ms, s, s + z, i);
      }
    }
  }

  lemma Sandwich(mask: Row, ms: seq<Member>, i: nat, j: nat, k: nat)
    requires MembersOn(|mask|, ms) && SortedByKey(mask, ms) && i <= j <= k < |ms|
    requires KeyOf(mask, ms[i]) == KeyOf(mask, ms[k])
    ensures KeyOf(mask, ms[j]) == KeyOf(mask, ms[i])
  {
    hide KeyOf, LexLeq;
    if i < j < k {
      LexAntisymmetric(KeyOf(mask, ms[i]), KeyOf(mask, ms[j]));
    }
  }

  /** The pairs of rows `lo..hi` sum to those rows of the naive double sum. */
  lemma {:induction false} ChunkIsRows(v: Probe, mask: Row, ms: seq<Member>, start: seq<nat>, size: seq<nat>, lo: nat, hi: nat)
    requires MembersOn(|mask|, ms) && SortedByKey(mask, ms) && lo <= hi <= |ms| == |start| == |size|
    requires forall i :: 0 <= i < |ms| ==> RunAt(Keys(mask, ms), i, start[i], size[i])
    ensures PairsOn(|ms|, Pairs(start, size, lo, hi))
    ensures SumPairs(v, mask, ms, Pairs(start, size, lo, hi)) == PairSum(v, mask, ms[lo..hi], ms)
  {
    hide SumPairs, RowSum, PairSum, Complex.Plus, KeyOf, LexLeq, RunAt, SortedByKey, RowPairs;
    if lo == hi {
      assert ms[lo..hi] == [];
      SumPairsNone(v, mask, ms);
    } else {
      var k := hi - 1;
      var row := RowPairs(k, start[k], size[k]);
      ChunkIsRows(v, mask, ms, start, size, lo, k);
      RunBounds(Keys(mask, ms), k, start[k], size[k]);
      RowOfPairs(v, mask, ms, k, start[k], size[k]);
      RowIsClassRow(v, mask, ms, k, start[k], size[k]);
      SumPairsConcat(v, mask, ms, Pairs(start, size, lo, k), row);
      assert ms[lo..hi] == ms[lo..k] + [ms[k]];
      PairSumConcatLeft(v, mask, ms[lo..k], [ms[k]], ms);
      PairSumOne(v, mask, ms[k], ms);
    }
  }

  lemma SumPairsNone(v: Probe, mask: Row, ms: seq<Member>)
    requires MembersOn(|mask|, ms)
    ensures SumPairs(v, mask, ms, []) == ZERO
    ensures PairSum(v, mask, [], ms) == ZERO
  {
  }

  lemma PairSumOne(v: Probe, mask: Row, a: Member, bs: seq<Member>)
    requires a.h.On(|mask|) && MembersOn(|mask|, bs)
    ensures PairSum(v, mask, [a], bs) == RowSum(v, mask, a, bs)
  {
    hide RowSum, Complex.Plus;
    PlusZero(RowSum(v, mask, a, bs));
  }

  lemma RunBounds(keys: seq<Row>, i: nat, s: nat, z: nat)
    requires RunAt(keys, i, s, z)
    ensures s <= i < s + z <= |keys|
  {
  }

  // ---- The estimator ----

  /** `base**powers` for `powers = 0..top`. */
  method PowerTable(base: real, top: nat) returns (table: seq<real>)
    ensures |table| == top + 1 && forall j :: 0 <= j <= top ==> table[j] == Pow(base, j)
  {
    hide Prod;
    table := [1.0];
    for j := 0 to top
      invariant |table| == j + 1 && forall i :: 0 <= i <= j ==> table[i] == Pow(base, i)
    {
      table := table + [Prod(base, table[j])];
    }
  }

  /** Per-row columns after sorting: the moving sites, and the flip bits on them. */
  datatype Columns = Columns(k: seq<Row>, flip: seq<Row>, weight: seq<nat>)

  predicate ColumnsOf(mask: Row, ms: seq<Member>, cols: Columns)
    requires MembersOn(|mask|, ms)
  {
    && |cols.k| == |cols.flip| == |cols.weight| == |ms|
    && forall i :: 0 <= i < |ms| ==>
         && cols.k[i] == Moving(mask, ms[i].h)
         && cols.flip[i] == And(ms[i].h.flip, Moving(mask, ms[i].h))
         && cols.weight[i] == Popcount(cols.k[i])
  }

  method MakeColumns(mask: Row, ms: seq<Member>) returns (cols: Columns)
    requires MembersOn(|mask|, ms)
    ensures ColumnsOf(mask, ms, cols)
  {
    hide Popcount;
    cols := Columns([], [], []);
    for i := 0 to |ms|
      invariant ColumnsOf(mask, ms[..i], cols)
    {
      var k := Moving(mask, ms[i].h);
      cols := Columns(cols.k + [k], cols.flip + [And(ms[i].h.flip, k)], cols.weight + [Popcount(k)]);
    }
    assert ms[..|ms|] == ms;
  }

  /** For two rows of one class, the tabulated entry is the naive kernel. */
  lemma TableEntry(v: Probe, mask: Row, ms: seq<Member>, cols: Columns, p: nat, q: nat, top: nat)
    requires MembersOn(|mask|, ms) && ColumnsOf(mask, ms, cols) && p < |ms| && q < |ms|
    requires SameClass(mask, ms[p].h, ms[q].h) && Popcount(mask) <= top
    ensures |cols.flip[p]| == |cols.flip[q]| == |mask|
    ensures
      var d := Xor(cols.flip[p], cols.flip[q]);
      && Popcount(d) <= cols.weight[p] <= top
      && Kernel(v, mask, ms[p].h, ms[q].h)
         == Signed(Popcount(And(if v.zAxis then cols.flip[p] else cols.flip[q], d)) % 2 == 1,
                   Prod(Pow(v.cos, cols.weight[p] - Popcount(d)), Pow(v.sin, Popcount(d))))
  {
    hide Popcount, Kernel, Prod, Pow, Signed;
    KernelInClass(v, mask, ms[p].h, ms[q].h);
    assert Moving(mask, ms[p].h) == Moving(mask, ms[q].h);
    PopcountAtMost(cols.k[p], mask);
  }

  /** The sum over one chunk of rows, by the vectorized index columns and the power tables. */
  method ChunkSum(v: Probe, mask: Row, ms: seq<Member>, cols: Columns, cosPow: seq<real>, sinPow: seq<real>,
                  start: seq<nat>, size: seq<nat>, lo: nat, hi: nat) returns (total: Complex)
    requires MembersOn(|mask|, ms) && SortedByKey(mask, ms) && ColumnsOf(mask, ms, cols)
    requires lo <= hi <= |ms| == |start| == |size|
    requires forall i :: 0 <= i < |ms| ==> RunAt(Keys(mask, ms), i, start[i], size[i])
    requires |cosPow| == |sinPow| > Popcount(mask)
    requires forall j :: 0 <= j < |cosPow| ==> cosPow[j] == Pow(v.cos, j) && sinPow[j] == Pow(v.sin, j)
    ensures total == PairSum(v, mask, ms[lo..hi], ms)
  {
    hide SortedByKey, RunAt, ColumnsOf, Popcount, Pow, PairWeight, Repeat, Begins, Pairs, SameClass, PairSum, KeyOf, SumPairs,
      Complex.Plus, MembersOn, CumSum;
    var counts := size[lo..hi];
    var p := Repeat(Range(lo, hi), counts);
    var ends := CumSum(counts);
    BeginsIsShiftedCumSum(counts);
    var shifts := Minus(ends, counts);
    assert shifts == Begins(counts);
    var begins := Repeat(shifts, counts);
    ghost var pairs := Pairs(start, size, lo, hi);
    ColumnsArePairs(start, size, lo, hi);
    ChunkIsRows(v, mask, ms, start, size, lo, hi);
    total := ZERO;
    SumPairsNone(v, mask, ms);
    for t := 0 to |p|
      invariant total == SumPairs(v, mask, ms, pairs[..t])
    {
      var q := start[p[t]] + (t - begins[t]);
      assert pairs[t] == (p[t], q);
      PairInClass(mask, ms, start, size, lo, hi, t);
      var weight := PairEntry(v, mask, ms, cols, cosPow, sinPow, p[t], q);
      SumPairsStep(v, mask, ms, pairs, t);
      total := total.Plus(weight);
    }
    assert pairs[..|p|] == pairs;
  }

  /** One term of the sum, from the popcounts and the power tables. */
  method PairEntry(v: Probe, mask: Row, ms: seq<Member>, cols: Columns, cosPow: seq<real>, sinPow: seq<real>,
                   p: nat, q: nat) returns (weight: Complex)
    requires MembersOn(|mask|, ms) && ColumnsOf(mask, ms, cols)
    requires p < |ms| && q < |ms| && SameClass(mask, ms[p].h, ms[q].h)
    requires |cosPow| == |sinPow| > Popcount(mask)
    requires forall j :: 0 <= j < |cosPow| ==> cosPow[j] == Pow(v.cos, j) && sinPow[j] == Pow(v.sin, j)
    ensures weight == PairWeight(v, mask, ms[p], ms[q])
  {
    hide ColumnsOf, Popcount, Prod, Pow, PairWeight, Kernel, SameClass, Complex.Times, Complex.Conj, Real;
    ColumnLengths(mask, ms, cols);
    TableEntry(v, mask, ms, cols, p, q, |cosPow| - 1);
    var d := Xor(cols.flip[p], cols.flip[q]);
    var flipped := Popcount(d);
    var negative := Popcount(And(if v.zAxis then cols.flip[p] else cols.flip[q], d)) % 2 == 1;
    var magnitude := Prod(cosPow[cols.weight[p] - flipped], sinPow[flipped]);
    WeightUnfold(v, mask, ms[p], ms[q]);
    weight := ms[p].c.Conj().Times(ms[q].c).Times(Real(if negative then -magnitude else magnitude));
  }

  lemma SumPairsStep(v: Probe, mask: Row, ms: seq<Member>, pairs: seq<(nat, nat)>, t: nat)
    requires MembersOn(|mask|, ms) && PairsOn(|ms|, pairs) && t < |pairs|
    ensures SumPairs(v, mask, ms, pairs[..t + 1])
         == SumPairs(v, mask, ms, pairs[..t]).Plus(PairWeight(v, mask, ms[pairs[t].0], ms[pairs[t].1]))
  {
    hide PairWeight, Complex.Plus;
    assert pairs[..t + 1][..t] == pairs[..t];
  }

  lemma ColumnLengths(mask: Row, ms: seq<Member>, cols: Columns)
    requires MembersOn(|mask|, ms) && ColumnsOf(mask, ms, cols)
    ensures |cols.k| == |cols.flip| == |cols.weight| == |ms|
  {
  }

  /** Every enumerated pair lies in one class. */
  lemma {:induction false} PairInClass(mask: Row, ms: seq<Member>, start: seq<nat>, size: seq<nat>, lo: nat, hi: nat, t: nat)
    requires MembersOn(|mask|, ms) && lo <= hi <= |ms| == |start| == |size|
    requires forall i :: 0 <= i < |ms| ==> RunAt(Keys(mask, ms), i, start[i], size[i])
    requires t < |Pairs(start, size, lo, hi)|
    ensures
      var (p, q) := Pairs(start, size, lo, hi)[t];
      p < |ms| && q < |ms| && SameClass(mask, ms[p].h, ms[q].h)
  {
    hide RunAt, SameClass, KeyOf;
    var before := Pairs(start, size, lo, hi - 1);
    if t < |before| {
      PairInClass(mask, ms, start, size, lo, hi - 1, t);
    } else {
      var p, o := hi - 1, t - |before|;
      RunKeys(Keys(mask, ms), p, start[p], size[p], start[p] + o);
      KeyIsClass(mask, ms[p], ms[start[p] + o]);
    }
  }

  lemma RunKeys(keys: seq<Row>, i: nat, s: nat, z: nat, j: nat)
    requires RunAt(keys, i, s, z) && s <= j < s + z
    ensures j < |keys| && i < |keys| && keys[i] == keys[j]
  {
  }

  /** `np.searchsorted(sums, target)`: the first index whose entry reaches `target`. */
  function SearchSorted(sums: seq<nat>, target: nat): (k: nat)
    ensures k <= |sums|
    ensures forall i :: 0 <= i < k ==> sums[i] < target
    ensures k < |sums| ==> sums[k] >= target
  {
    if |sums| == 0 then 0
    else
      var k := SearchSorted(sums[..|sums| - 1], target);
      if k < |sums| - 1 then k else if sums[|sums| - 1] >= target then |sums| - 1 else |sums|
  }

  lemma SearchMonotone(sums: seq<nat>, a: nat, b: nat)
    requires a <= b
    ensures SearchSorted(sums, a) <= SearchSorted(sums, b)
  {
    var k := SearchSorted(sums, b);
    if k < |sums| {
      assert sums[k] >= a;
    }
  }

  lemma {:induction false} CumSumAt(counts: seq<nat>, k: nat)
    requires k < |counts|
    ensures CumSum(counts)[k] == Total(counts[..k + 1]) == Total(counts[..k]) + counts[k]
  {
    var last := |counts| - 1;
    assert counts[..k + 1][..k] == counts[..k];
    if k < last {
      CumSumAt(counts[..last], k);
      assert counts[..last][..k + 1] == counts[..k + 1];
    } else {
      assert counts[..k + 1] == counts;
    }
  }

  lemma {:induction false} TotalSlice(counts: seq<nat>, lo: nat, hi: nat)
    requires lo <= hi <= |counts|
    ensures Total(counts[..hi]) == Total(counts[..lo]) + Total(counts[lo..hi])
    decreases hi - lo
  {
    if lo < hi {
      TotalSlice(counts, lo, hi - 1);
      assert counts[..hi][..hi - 1] == counts[..hi - 1] && counts[lo..hi][..hi - lo - 1] == counts[lo..hi - 1];
    }
  }

  /** The pairs of rows `lo..hi` number at most `chunk` more than those of the first row. */
  predicate FitsChunk(size: seq<nat>, chunk: nat, lo: nat, hi: nat) {
    lo < hi <= |size| ==> Total(size[lo..hi]) <= chunk + size[lo]
  }

  /** Row `lo` is the first whose cumulative count reaches `mark`. */
  predicate Reaches(size: seq<nat>, lo: nat, mark: nat) {
    lo <= |size| && (lo < |size| ==> Total(size[..lo]) + size[lo] >= mark)
  }

  lemma ChunkFits(size: seq<nat>, chunk: nat, lo: nat, hi: nat, target: nat)
    requires lo <= hi <= |size| && target >= chunk && Reaches(size, lo, target - chunk) && Total(size[..hi]) <= target
    ensures FitsChunk(size, chunk, lo, hi)
  {
    TotalSlice(size, lo, hi);
  }

  lemma SearchMark(size: seq<nat>, target: nat)
    ensures
      var k := SearchSorted(CumSum(size), target);
      k <= |size| && Reaches(size, k, target) && (k > 0 ==> Total(size[..k]) < target)
  {
    hide SearchSorted, CumSum, Total;
    var k := SearchSorted(CumSum(size), target);
    if k < |size| {
      CumSumAt(size, k);
    }
    if k > 0 {
      CumSumAt(size, k - 1);
    }
  }

  /** The multiples of the chunk size, from one chunk on. */
  function Mark(chunk: nat, i: nat): nat {
    (i + 1) * chunk
  }

  lemma FirstMark(chunk: nat)
    ensures Mark(chunk, 0) == chunk
  {
  }

  lemma NextMark(chunk: nat, i: nat)
    ensures Mark(chunk, i + 1) == Mark(chunk, i) + chunk
  {
  }

  /** The running total reaches the mark in row `k`. */
  predicate CutAt(size: seq<nat>, mark: nat, k: nat) {
    k < |size| && Total(size[..k]) < mark <= Total(size[..k]) + size[k]
  }

  lemma SearchCut(size: seq<nat>, target: nat)
    requires 0 < target < Total(size)
    ensures CutAt(size, target, SearchSorted(CumSum(size), target))
  {
    hide SearchSorted, CumSum, Total;
    SearchMark(size, target);
    NoTotal(size[..0]);
    assert size[..|size|] == size;
  }

  /** Every stretch between consecutive cuts fits. */
  predicate FitsAll(size: seq<nat>, chunk: nat, cuts: seq<nat>) {
    forall i :: 0 <= i < |cuts| - 1 ==> FitsChunk(size, chunk, cuts[i], cuts[i + 1])
  }

  /** Cuts in order, none past `top`. */
  predicate Climbs(cuts: seq<nat>, top: nat) {
    (forall i, j :: 0 <= i < j < |cuts| ==> cuts[i] <= cuts[j]) && forall i :: 0 <= i < |cuts| ==> cuts[i] <= top
  }

  lemma AddCut(size: seq<nat>, chunk: nat, cuts: seq<nat>, k: nat, top: nat)
    requires |cuts| > 0 && FitsAll(size, chunk, cuts) && Climbs(cuts, k) && FitsChunk(size, chunk, cuts[|cuts| - 1], k) && k <= top
    ensures FitsAll(size, chunk, cuts + [k]) && Climbs(cuts + [k], top)
  {
    hide FitsChunk;
    var all := cuts + [k];
    forall i | 0 <= i < |all| - 1 ensures FitsChunk(size, chunk, all[i], all[i + 1]) {
      if i < |cuts| - 1 {
        assert all[i] == cuts[i] && all[i + 1] == cuts[i + 1];
      }
    }
  }

  lemma FirstCut(size: seq<nat>, chunk: nat, top: nat)
    ensures FitsAll(size, chunk, [0]) && Climbs([0], top) && Reaches(size, 0, 0)
  {
  }

  lemma CutsMean(size: seq<nat>, chunk: nat, cuts: seq<nat>, bounds: seq<nat>, top: nat)
    requires cuts == [0] + bounds && Climbs(cuts, top)
    ensures forall i :: 0 <= i < |bounds| ==> bounds[i] <= top
    ensures forall i, j :: 0 <= i < j < |bounds| ==> bounds[i] <= bounds[j]
  {
    assert forall i :: 0 <= i < |bounds| ==> bounds[i] == cuts[i + 1];
  }

  /** The chunk boundaries: rows in order, and about `chunk` pairs between consecutive ones. */
  method ChunkBounds(size: seq<nat>, chunk: nat) returns (bounds: seq<nat>)
    requires chunk > 0
    ensures forall i :: 0 <= i < |bounds| ==> bounds[i] <= |size|
    ensures forall i, j :: 0 <= i < j < |bounds| ==> bounds[i] <= bounds[j]
    ensures FitsAll(size, chunk, [0] + bounds + [|size|])
    ensures Mark(chunk, |bounds|) >= Total(size)
    ensures forall i :: 0 <= i < |bounds| ==> Mark(chunk, i) < Total(size) && CutAt(size, Mark(chunk, i), bounds[i])
  {
    hide SearchSorted, FitsChunk, Reaches, CumSum, FitsAll, Climbs, Total, Mark, CutAt;
    FirstMark(chunk);
    var sums := CumSum(size);
    var target := chunk;
    bounds := [];
    ghost var cuts := [0];
    FirstCut(size, chunk, SearchSorted(sums, target));
    while target < Total(size)
      invariant target >= chunk && cuts == [0] + bounds && Reaches(size, cuts[|bounds|], target - chunk)
      invariant FitsAll(size, chunk, cuts) && Climbs(cuts, SearchSorted(sums, target))
      invariant target == Mark(chunk, |bounds|)
      invariant forall i :: 0 <= i < |bounds| ==> Mark(chunk, i) < Total(size) && CutAt(size, Mark(chunk, i), bounds[i])
      decreases Total(size) - target
    {
      var k := SearchSorted(sums, target);
      SearchMonotone(sums, target, target + chunk);
      SearchMark(size, target);
      NoTotal(size[..0]);
      SearchCut(size, target);
      NextMark(chunk, |bounds|);
      LastCut(cuts, k);
      ChunkFits(size, chunk, cuts[|bounds|], k, target);
      AddCut(size, chunk, cuts, k, SearchSorted(sums, target + chunk));
      bounds := bounds + [k];
      cuts := cuts + [k];
      target := target + chunk;
    }
    SearchMark(size, target);
    assert size[..|size|] == size;
    LastCut(cuts, SearchSorted(sums, target));
    ChunkFits(size, chunk, cuts[|bounds|], |size|, target);
    CutsRise(cuts, SearchSorted(sums, target), |size|);
    AddCut(size, chunk, cuts, |size|, |size|);
    CutsMean(size, chunk, cuts, bounds, |size|);
  }

  lemma LastCut(cuts: seq<nat>, top: nat)
    requires |cuts| > 0 && Climbs(cuts, top)
    ensures cuts[|cuts| - 1] <= top
  {
  }

  lemma CutsRise(cuts: seq<nat>, low: nat, top: nat)
    requires Climbs(cuts, low) && low <= top
    ensures Climbs(cuts, top)
  {
  }

  lemma NoTotal(counts: seq<nat>)
    requires |counts| == 0
    ensures Total(counts) == 0
  {
  }

  /** All ordered pairs of one class, chunk after chunk: the whole naive double sum over the moving rows. */
  method ClassPairs(v: Probe, mask: Row, ms: seq<Member>, top: nat, chunk: nat) returns (total: Complex)
    requires MembersOn(|mask|, ms) && SortedByKey(mask, ms) && Popcount(mask) <= top && chunk > 0
    ensures total == PairSum(v, mask, ms, ms)
  {
    hide SortedByKey, RunAt, ColumnsOf, Popcount, Pow, Complex.Plus, KeyOf, PairSum, RowSum;
    var cols := MakeColumns(mask, ms);
    var start, size := ClassRuns(Keys(mask, ms));
    var cosPow := PowerTable(v.cos, top);
    var sinPow := PowerTable(v.sin, top);
    var bounds := ChunkBounds(size, chunk);
    var ends := bounds + [|ms|];
    total := ZERO;
    var lo := 0;
    SumPairsNone(v, mask, ms);
    for i := 0 to |ends|
      invariant 0 <= lo <= |ms| && (i < |ends| ==> lo <= ends[i]) && (i == |ends| ==> lo == |ms|)
      invariant total == PairSum(v, mask, ms[..lo], ms)
    {
      var hi := ends[i];
      if lo != hi {
        var part := ChunkSum(v, mask, ms, cols, cosPow, sinPow, start, size, lo, hi);
        assert ms[..hi] == ms[..lo] + ms[lo..hi];
        PairSumConcatLeft(v, mask, ms[..lo], ms[lo..hi], ms);
        total := total.Plus(part);
      }
      lo := hi;
    }
    assert ms[..|ms|] == ms;
  }

  // ---- Fixed and moving rows ----

  function MemberNorm(ms: seq<Member>): real {
    if |ms| == 0 then 0.0 else MemberNorm(ms[..|ms| - 1]) + ms[|ms| - 1].c.Abs2()
  }

  /** Rows no probe site anticommutes with contribute `sum |c|^2`; the rest go on to the pair loop. */
  method SplitRows(mask: Row, ms: seq<Member>) returns (fixed: real, moving: seq<Member>, ghost still: seq<Member>)
    requires MembersOn(|mask|, ms)
    ensures MembersOn(|mask|, moving) && MembersOn(|mask|, still)
    ensures multiset(still + moving) == multiset(ms)
    ensures fixed == MemberNorm(still)
    ensures AllMoving(mask, moving, true) && AllMoving(mask, still, false)
    ensures DistinctMembers(ms) ==> DistinctMembers(still)
  {
    hide Popcount, Complex.Abs2, Moving, DistinctMembers;
    fixed, moving, still := 0.0, [], [];
    NoneDistinct();
    for i := 0 to |ms|
      invariant MembersOn(|mask|, moving) && MembersOn(|mask|, still)
      invariant multiset(still + moving) == multiset(ms[..i])
      invariant fixed == MemberNorm(still)
      invariant AllMoving(mask, moving, true) && AllMoving(mask, still, false)
      invariant DistinctMembers(ms) ==> DistinctMembers(still)
    {
      if DistinctMembers(ms) {
        DistinctStep(ms, i, still, moving);
      }
      SplitStep(ms, i, still, moving);
      if Popcount(Moving(mask, ms[i].h)) > 0 {
        moving := moving + [ms[i]];
      } else {
        fixed := fixed + ms[i].c.Abs2();
        assert (still + [ms[i]])[..|still|] == still;
        still := still + [ms[i]];
      }
    }
    assert ms[..|ms|] == ms;
  }

  predicate AllMoving(mask: Row, ms: seq<Member>, moving: bool)
    requires MembersOn(|mask|, ms)
  {
    forall i :: 0 <= i < |ms| ==> (Popcount(Moving(mask, ms[i].h)) > 0) == moving
  }

  lemma SplitStep(ms: seq<Member>, i: nat, still: seq<Member>, moving: seq<Member>)
    requires i < |ms| && multiset(still + moving) == multiset(ms[..i])
    ensures multiset((still + [ms[i]]) + moving) == multiset(ms[..i + 1])
    ensures multiset(still + (moving + [ms[i]])) == multiset(ms[..i + 1])
  {
    assert ms[..i + 1] == ms[..i] + [ms[i]];
    assert still + (moving + [ms[i]]) == (still + moving) + [ms[i]];
  }

  lemma NoneDistinct()
    ensures DistinctMembers([])
  {
  }

  lemma DistinctStep(ms: seq<Member>, i: nat, still: seq<Member>, moving: seq<Member>)
    requires i < |ms| && multiset(still + moving) == multiset(ms[..i]) && DistinctMembers(ms) && DistinctMembers(still)
    ensures DistinctMembers(still + [ms[i]])
  {
    forall j | 0 <= j < |still| ensures still[j].h != ms[i].h {
      assert (still + moving)[j] in multiset(still + moving);
      assert still[j] in ms[..i];
      var k :| 0 <= k < i && ms[k] == still[j];
    }
  }

  /** Between rows no site moves, the kernel is the identity. */
  lemma StillKernel(v: Probe, mask: Row, a: Halves, b: Halves)
    requires a.On(|mask|) && b.On(|mask|)
    requires Popcount(Moving(mask, a)) == 0 && Popcount(Moving(mask, b)) == 0
    ensures Kernel(v, mask, a, b) == if a == b then 1.0 else 0.0
  {
    hide Kernel, Popcount, Pow, Prod;
    var k := Moving(mask, a);
    NoMovingBits(k); NoMovingBits(Moving(mask, b));
    assert AndNot(a.flip, k) == a.flip && AndNot(b.flip, Moving(mask, b)) == b.flip;
    if a == b {
      KernelInClass(v, mask, a, b);
      var n := |mask|;
      assert And(a.flip, k) == NoBits(n) && Xor(NoBits(n), NoBits(n)) == NoBits(n) && And(NoBits(n), NoBits(n)) == NoBits(n);
      PopcountNone(n);
      PowZero(v.cos); PowZero(v.sin); ProdUnits(1.0, 1.0);
    } else {
      KernelOffClass(v, mask, a, b);
    }
  }

  lemma PowZero(b: real)
    ensures Pow(b, 0) == 1.0
  {
  }

  lemma {:induction false} NoMovingBits(k: Row)
    requires Popcount(k) == 0
    ensures k == NoBits(|k|)
  {
    if |k| > 0 {
      NoMovingBits(k[1..]);
      assert k == [k[0]] + k[1..];
      assert NoBits(|k|) == [false] + NoBits(|k| - 1);
    }
  }

  lemma SelfWeight(v: Probe, mask: Row, a: Member)
    requires a.h.On(|mask|) && Kernel(v, mask, a.h, a.h) == 1.0
    ensures PairWeight(v, mask, a, a) == Real(a.c.Abs2())
  {
    hide Complex.Times, Complex.Abs2, Kernel;
    ConjSelf(a.c);
    RealOne();
    TimesUnits(Real(a.c.Abs2()));
  }

  lemma RealOne()
    ensures Real(1.0) == ONE
  {
  }

  /** The kernel is the identity matrix on `ms`. */
  predicate IdentityOn(v: Probe, mask: Row, ms: seq<Member>)
    requires MembersOn(|mask|, ms)
  {
    forall i, j :: 0 <= i < |ms| && 0 <= j < |ms| ==> Kernel(v, mask, ms[i].h, ms[j].h) == if i == j then 1.0 else 0.0
  }

  lemma DiagonalRow(v: Probe, mask: Row, ms: seq<Member>, i: nat)
    requires MembersOn(|mask|, ms) && IdentityOn(v, mask, ms) && i < |ms|
    ensures RowSum(v, mask, ms[i], ms) == Real(ms[i].c.Abs2())
  {
    hide RowSum, Kernel, PairWeight, Complex.Plus, Real, Complex.Abs2;
    var a := ms[i];
    assert ms == ms[..i] + [a] + ms[i + 1..];
    RowSumConcat(v, mask, a, ms[..i] + [a], ms[i + 1..]);
    RowSumConcat(v, mask, a, ms[..i], [a]);
    RowSumZero(v, mask, a, ms[..i]);
    RowSumZero(v, mask, a, ms[i + 1..]);
    SelfWeight(v, mask, a);
    RowSumOne(v, mask, a, a);
    PlusZero(Real(a.c.Abs2()));
  }

  lemma RowSumOne(v: Probe, mask: Row, a: Member, b: Member)
    requires a.h.On(|mask|) && b.h.On(|mask|)
    ensures RowSum(v, mask, a, [b]) == PairWeight(v, mask, a, b)
  {
    hide PairWeight, Complex.Plus;
    PlusZero(PairWeight(v, mask, a, b));
  }

  lemma MemberNormSteps(ms: seq<Member>, k: nat)
    requires k <= |ms|
    ensures MemberNorm([]) == 0.0
    ensures k > 0 ==> MemberNorm(ms[..k]) == MemberNorm(ms[..k - 1]) + ms[k - 1].c.Abs2()
  {
    hide Complex.Abs2;
    if k > 0 {
      assert ms[..k][..k - 1] == ms[..k - 1];
    }
  }

  lemma {:induction false} DiagonalSum(v: Probe, mask: Row, ms: seq<Member>, k: nat)
    requires MembersOn(|mask|, ms) && IdentityOn(v, mask, ms) && k <= |ms|
    ensures PairSum(v, mask, ms[..k], ms) == Real(MemberNorm(ms[..k]))
    decreases k
  {
    hide RowSum, PairSum, Complex.Plus, Real, Complex.Abs2, IdentityOn, Complex.Times, Complex.Conj, PairWeight, Kernel, MemberNorm;
    MemberNormSteps(ms, k);
    if k == 0 {
      SumPairsNone(v, mask, ms);
      assert ms[..0] == [];
      RealZero();
    } else {
      DiagonalSum(v, mask, ms, k - 1);
      assert ms[..k] == ms[..k - 1] + [ms[k - 1]];
      PairSumConcatLeft(v, mask, ms[..k - 1], [ms[k - 1]], ms);
      PairSumOne(v, mask, ms[k - 1], ms);
      DiagonalRow(v, mask, ms, k - 1);
      RealPlus(MemberNorm(ms[..k - 1]), ms[k - 1].c.Abs2());
    }
  }

  lemma StillIdentity(v: Probe, mask: Row, ms: seq<Member>)
    requires MembersOn(|mask|, ms) && AllMoving(mask, ms, false) && DistinctMembers(ms)
    ensures IdentityOn(v, mask, ms)
  {
    hide Kernel, Popcount, Moving;
    forall i, j | 0 <= i < |ms| && 0 <= j < |ms|
      ensures Kernel(v, mask, ms[i].h, ms[j].h) == if i == j then 1.0 else 0.0
    {
      StillKernel(v, mask, ms[i].h, ms[j].h);
    }
  }

  lemma CrossKernel(v: Probe, mask: Row, a: Halves, b: Halves)
    requires a.On(|mask|) && b.On(|mask|)
    requires (Popcount(Moving(mask, a)) > 0) != (Popcount(Moving(mask, b)) > 0)
    ensures Kernel(v, mask, a, b) == 0.0
  {
    hide Kernel, Popcount;
    KernelOffClass(v, mask, a, b);
  }

  /** The naive sum splits into the fixed norm and the pairs of moving rows. */
  lemma FixedAndMoving(v: Probe, mask: Row, ms: seq<Member>, still: seq<Member>, moving: seq<Member>)
    requires MembersOn(|mask|, ms) && MembersOn(|mask|, still) && MembersOn(|mask|, moving)
    requires multiset(still + moving) == multiset(ms) && DistinctMembers(still)
    requires AllMoving(mask, still, false) && AllMoving(mask, moving, true)
    ensures PairSum(v, mask, ms, ms) == PairSum(v, mask, moving, moving).Plus(Real(MemberNorm(still)))
  {
    hide PairSum, Complex.Plus, Real, Popcount, Moving, Kernel, DistinctMembers;
    var both := still + moving;
    PairSumPermutation(v, mask, ms, both);
    PairSumConcatLeft(v, mask, still, moving, both);
    PairSumConcatRight(v, mask, still, still, moving);
    PairSumConcatRight(v, mask, moving, still, moving);
    forall i, j | 0 <= i < |still| && 0 <= j < |moving|
      ensures Kernel(v, mask, still[i].h, moving[j].h) == 0.0 && Kernel(v, mask, moving[j].h, still[i].h) == 0.0
    {
      CrossKernel(v, mask, still[i].h, moving[j].h);
      CrossKernel(v, mask, moving[j].h, still[i].h);
    }
    PairSumZero(v, mask, still, moving);
    PairSumZero(v, mask, moving, still);
    StillIdentity(v, mask, still);
    DiagonalSum(v, mask, still, |still|);
    assert still[..|still|] == still;
    var f, m := Real(MemberNorm(still)), PairSum(v, mask, moving, moving);
    PlusZero(f); PlusZero(m); PlusComm(f, m);
  }

  lemma {:induction false} AllMovingSame(mask: Row, a: seq<Member>, b: seq<Member>, flag: bool)
    requires MembersOn(|mask|, a) && MembersOn(|mask|, b) && multiset(a) == multiset(b) && AllMoving(mask, a, flag)
    ensures AllMoving(mask, b, flag)
  {
    hide Popcount, Moving;
    forall i | 0 <= i < |b| ensures (Popcount(Moving(mask, b[i].h)) > 0) == flag {
      assert b[i] in multiset(b);
      assert b[i] in a;
    }
  }

  predicate SitesValid(n: nat, sites: seq<int>) {
    NoRepeats(sites) && forall i :: 0 <= i < |sites| ==> 0 <= sites[i] < n
  }

  function AsSites(n: nat, sites: seq<int>): (r: seq<nat>)
    requires SitesValid(n, sites)
    ensures |r| == |sites| && SitesOn(n, r) && forall i :: 0 <= i < |sites| ==> r[i] == sites[i]
  {
    seq(|sites|, i requires 0 <= i < |sites| => sites[i])
  }

  /**
   `rotated_overlap_complex`: refuses a repeated or outside site and an unknown axis; otherwise, at every
   chunk size, the sum over all ordered pairs of `conj(c_P) c_Q` times the product of the site kernels.
   */
  method RotatedOverlapComplex(n: nat, ts: seq<Term>, sites: seq<int>, cos: real, sin: real, axis: string, chunk: nat)
    returns (r: Outcome<Complex>)
    requires OnQubits(n, ts) && Distinct(ts) && chunk > 0
    ensures r.Ok? <==> SitesValid(n, sites) && (axis == "x" || axis == "z")
    ensures r == Err(SiteTwice) <==> !NoRepeats(sites)
    ensures r == Err(BadAxis) <==> SitesValid(n, sites) && axis != "x" && axis != "z"
    ensures r.Ok? ==>
              var ms := MembersOf(axis == "z", ts);
              r.value == PairSum(Probe(axis == "z", cos, sin), MaskOf(n, AsSites(n, sites)), ms, ms)
  {
    hide PairSum, SortedByKey, AllMoving, DistinctMembers, Popcount, Complex.Plus, HalvesOf, Distinct;
    var masked := SiteMask(sites, n);
    if masked.Err? {
      return Err(masked.error);
    }
    var mask := masked.value;
    if axis != "x" && axis != "z" {
      return Err(BadAxis);
    }
    var v := Probe(axis == "z", cos, sin);
    var ms := MembersOf(v.zAxis, ts);
    assert mask == MaskOf(n, AsSites(n, sites));
    MaskWeight(n, AsSites(n, sites));
    MembersOfTerms(n, v.zAxis, ts);
    var fixed, moving, still := SplitRows(mask, ms);
    var sorted := Lexsort(mask, moving);
    AllMovingSame(mask, moving, sorted, true);
    assert multiset(still + sorted) == multiset(ms);
    FixedAndMoving(v, mask, ms, still, sorted);
    if |moving| == 0 {
      SumPairsNone(v, mask, sorted);
      PlusZero(Real(fixed));
      return Ok(Real(fixed));
    }
    var total := ClassPairs(v, mask, sorted, |sites|, chunk);
    return Ok(total.Plus(Real(fixed)));
  }

  lemma MembersOfTerms(n: nat, zAxis: bool, ts: seq<Term>)
    requires OnQubits(n, ts) && Distinct(ts)
    ensures MembersOn(n, MembersOf(zAxis, ts)) && DistinctMembers(MembersOf(zAxis, ts))
  {
    forall i, j | 0 <= i < j < |ts| ensures HalvesOf(zAxis, ts[i].p) != HalvesOf(zAxis, ts[j].p) {
      HalvesEqual(zAxis, ts[i].p, ts[j].p);
    }
  }
}
