/**
 The diagonal echo of the anticommutation histogram, and the orthogonality of the echo kernel.
 */
module OleDiagonal {
  import opened Complexes
  import opened Paulis
  import opened PauliSums
  import opened OleKernel
  import opened OleTrace
  import opened OleSums
  import opened OleOverlap
  import opened OleRanks

  // ---- The histogram ----

  /** How many probe generators a string anticommutes with. */
  function CountOf(zAxis: bool, mask: Row, p: Pauli): nat
    requires p.On(|mask|)
  {
    Popcount(And(HalvesOf(zAxis, p).sel, mask))
  }

  /** Weight of the strings anticommuting with exactly `k` generators. */
  function Bin(zAxis: bool, mask: Row, ts: seq<Term>, k: nat): real
    requires OnQubits(|mask|, ts)
  {
    if |ts| == 0 then 0.0
    else
      var last := |ts| - 1;
      Bin(zAxis, mask, ts[..last], k) + (if CountOf(zAxis, mask, ts[last].p) == k then ts[last].c.Abs2() else 0.0)
  }

  /** How many of the sites' generators a string anticommutes with. */
  function AnticommutingSites(zAxis: bool, n: nat, sites: seq<nat>, p: Pauli): nat
    requires p.On(n)
  {
    if |sites| == 0 then 0
    else
      var k := |sites| - 1;
      AnticommutingSites(zAxis, n, sites[..k], p) + if Commutes(p, Single(n, sites[k], !zAxis, zAxis)) then 0 else 1
  }

  /** The popcount is that number. */
  lemma {:induction false} CountIsAnticommuting(zAxis: bool, n: nat, sites: seq<nat>, p: Pauli)
    requires p.On(n) && SitesOn(n, sites)
    ensures CountOf(zAxis, MaskOf(n, sites), p) == AnticommutingSites(zAxis, n, sites, p)
  {
    hide Popcount, Commutes;
    var sel := HalvesOf(zAxis, p).sel;
    if |sites| == 0 {
      MaskNone(n, sites);
      assert And(sel, NoBits(n)) == NoBits(n);
      PopcountNone(n);
    } else {
      var k := |sites| - 1;
      var before, q := sites[..k], sites[k];
      CountIsAnticommuting(zAxis, n, before, p);
      assert sites == before + [q];
      MaskStep(n, before, q);
      SiteCommutes(zAxis, n, q, p);
      CountStep(sel, MaskOf(n, before), q);
    }
  }

  lemma CountStep(sel: Row, mask: Row, q: nat)
    requires |sel| == |mask| && q < |mask| && !mask[q]
    ensures Popcount(And(sel, mask[q := true])) == Popcount(And(sel, mask)) + if sel[q] then 1 else 0
  {
    hide Popcount;
    var row := And(sel, mask);
    if sel[q] {
      assert And(sel, mask[q := true]) == row[q := true];
      PopcountSet(row, q);
    } else {
      assert And(sel, mask[q := true]) == row;
    }
  }

  lemma SiteCommutes(zAxis: bool, n: nat, q: nat, p: Pauli)
    requires p.On(n) && q < n
    ensures Commutes(p, Single(n, q, !zAxis, zAxis)) <==> !HalvesOf(zAxis, p).sel[q]
  {
    WithSingle(n, p, q, !zAxis, zAxis);
  }

  lemma CountAtMost(zAxis: bool, mask: Row, p: Pauli)
    requires p.On(|mask|)
    ensures CountOf(zAxis, mask, p) <= Popcount(mask)
  {
    PopcountAtMost(And(HalvesOf(zAxis, p).sel, mask), mask);
  }

  /** `anticommute_histogram`: `bincount` with weights, one bin per count `0..|sites|`. */
  method AnticommuteHistogram(n: nat, ts: seq<Term>, sites: seq<int>, axis: string) returns (r: Outcome<seq<real>>)
    requires OnQubits(n, ts)
    ensures r.Ok? <==> SitesValid(n, sites) && (axis == "x" || axis == "z")
    ensures r == Err(SiteTwice) <==> !NoRepeats(sites)
    ensures r == Err(BadAxis) <==> SitesValid(n, sites) && axis != "x" && axis != "z"
    ensures r.Ok? ==> |r.value| == |sites| + 1
    ensures r.Ok? ==> forall k :: 0 <= k <= |sites| ==> r.value[k] == Bin(axis == "z", MaskOf(n, AsSites(n, sites)), ts, k)
  {
    hide Popcount, CountOf, Complex.Abs2;
    var masked := SiteMask(sites, n);
    if masked.Err? {
      return Err(masked.error);
    }
    var mask := masked.value;
    if axis != "x" && axis != "z" {
      return Err(BadAxis);
    }
    assert mask == MaskOf(n, AsSites(n, sites));
    MaskWeight(n, AsSites(n, sites));
    var zAxis := axis == "z";
    var hist := new real[|sites| + 1](_ => 0.0);
    for i := 0 to |ts|
      invariant forall k :: 0 <= k <= |sites| ==> hist[k] == Bin(zAxis, mask, ts[..i], k)
    {
      var count := CountOf(zAxis, mask, ts[i].p);
      CountAtMost(zAxis, mask, ts[i].p);
      assert ts[..i + 1][..i] == ts[..i];
      hist[count] := hist[count] + ts[i].c.Abs2();
    }
    assert ts[..|ts|] == ts;
    return Ok(hist[..]);
  }

  // ---- The reduction over ranks ----

  lemma {:induction false} BinConcat(zAxis: bool, mask: Row, a: seq<Term>, b: seq<Term>, k: nat)
    requires OnQubits(|mask|, a) && OnQubits(|mask|, b)
    ensures Bin(zAxis, mask, a + b, k) == Bin(zAxis, mask, a, k) + Bin(zAxis, mask, b, k)
  {
    hide CountOf, Complex.Abs2;
    if |b| == 0 {
      assert a + b == a;
    } else {
      assert (a + b)[..|a + b| - 1] == a + b[..|b| - 1];
      BinConcat(zAxis, mask, a, b[..|b| - 1], k);
    }
  }

  lemma {:induction false} BinBelow(zAxis: bool, mask: Row, owner: Pauli -> nat, r: nat, ts: seq<Term>, k: nat)
    requires OnQubits(|mask|, ts)
    ensures OnQubits(|mask|, Below(owner, r, ts)) && OnQubits(|mask|, Below(owner, r + 1, ts)) && OnQubits(|mask|, Share(owner, r, ts))
    ensures Bin(zAxis, mask, Below(owner, r + 1, ts), k)
         == Bin(zAxis, mask, Below(owner, r, ts), k) + Bin(zAxis, mask, Share(owner, r, ts), k)
  {
    hide Bin;
    if |ts| == 0 {
      NoBin(zAxis, mask, k);
    } else {
      var t, rest := [ts[0]], ts[1..];
      BinBelow(zAxis, mask, owner, r, rest, k);
      BinConcat(zAxis, mask, t, Below(owner, r + 1, rest), k);
      BinConcat(zAxis, mask, t, Below(owner, r, rest), k);
      BinConcat(zAxis, mask, t, Share(owner, r, rest), k);
      var none: seq<Term> := [];
      assert none + Below(owner, r + 1, rest) == Below(owner, r + 1, rest);
      assert none + Below(owner, r, rest) == Below(owner, r, rest);
      assert none + Share(owner, r, rest) == Share(owner, r, rest);
    }
  }

  lemma NoBin(zAxis: bool, mask: Row, k: nat)
    ensures Bin(zAxis, mask, [], k) == 0.0
  {
  }

  /** The bins of the first `r` ranks, added up. */
  function RankBins(zAxis: bool, mask: Row, owner: Pauli -> nat, r: nat, ts: seq<Term>, k: nat): real
    requires OnQubits(|mask|, ts)
  {
    if r == 0 then 0.0
    else
      ShareOwned(|mask|, owner, r - 1, ts);
      RankBins(zAxis, mask, owner, r - 1, ts, k) + Bin(zAxis, mask, Share(owner, r - 1, ts), k)
  }

  /** However the strings are spread over ranks, the reduced histogram is that of the whole sum. */
  lemma {:induction false} RankBinsAddUp(zAxis: bool, mask: Row, owner: Pauli -> nat, r: nat, ts: seq<Term>, k: nat)
    requires OnQubits(|mask|, ts)
    ensures OnQubits(|mask|, Below(owner, r, ts)) && RankBins(zAxis, mask, owner, r, ts, k) == Bin(zAxis, mask, Below(owner, r, ts), k)
    ensures (forall i :: 0 <= i < |ts| ==> owner(ts[i].p) < r) ==> RankBins(zAxis, mask, owner, r, ts, k) == Bin(zAxis, mask, ts, k)
  {
    hide Bin, Share, Below;
    BelowMembers(|mask|, owner, r, ts);
    if r == 0 {
      NoBin(zAxis, mask, k);
    } else {
      RankBinsAddUp(zAxis, mask, owner, r - 1, ts, k);
      BinBelow(zAxis, mask, owner, r - 1, ts, k);
    }
  }

  /** `anticommute_histogram` with `comm`: the ranks' histograms are added bin by bin. */
  method ReducedHistogram(n: nat, ts: seq<Term>, owner: Pauli -> nat, ranks: nat, sites: seq<int>, axis: string)
    returns (r: Outcome<seq<real>>)
    requires OnQubits(n, ts) && ranks > 0 && forall i :: 0 <= i < |ts| ==> owner(ts[i].p) < ranks
    ensures r.Ok? <==> SitesValid(n, sites) && (axis == "x" || axis == "z")
    ensures r == Err(SiteTwice) <==> !NoRepeats(sites)
    ensures r == Err(BadAxis) <==> SitesValid(n, sites) && axis != "x" && axis != "z"
    ensures r.Ok? ==> |r.value| == |sites| + 1
    ensures r.Ok? ==> forall k :: 0 <= k <= |sites| ==> r.value[k] == Bin(axis == "z", MaskOf(n, AsSites(n, sites)), ts, k)
  {
    hide Bin, Share, SitesValid, NoRepeats;
    var sum := new real[|sites| + 1](_ => 0.0);
    for rank := 0 to ranks
      invariant rank > 0 ==> SitesValid(n, sites) && NoRepeats(sites) && (axis == "x" || axis == "z")
      invariant SitesValid(n, sites) ==>
                  forall k :: 0 <= k <= |sites| ==> sum[k] == RankBins(axis == "z", MaskOf(n, AsSites(n, sites)), owner, rank, ts, k)
    {
      ShareOwned(n, owner, rank, ts);
      var local := AnticommuteHistogram(n, Share(owner, rank, ts), sites, axis);
      if local.Err? {
        return Err(local.error);
      }
      AddBins(sum, local.value);
    }
    forall k | 0 <= k <= |sites|
      ensures sum[k] == Bin(axis == "z", MaskOf(n, AsSites(n, sites)), ts, k)
    {
      RankBinsAddUp(axis == "z", MaskOf(n, AsSites(n, sites)), owner, ranks, ts, k);
    }
    return Ok(sum[..]);
  }

  method AddBins(sum: array<real>, w: seq<real>)
    requires sum.Length == |w|
    modifies sum
    ensures forall k :: 0 <= k < |w| ==> sum[k] == old(sum[k]) + w[k]
  {
    for k := 0 to |w|
      invariant forall i :: 0 <= i < k ==> sum[i] == old(sum[i]) + w[i]
      invariant forall i :: k <= i < |w| ==> sum[i] == old(sum[i])
    {
      sum[k] := sum[k] + w[k];
    }
  }

  // ---- The diagonal echo ----

  /** `sum_n w_n b^(from + n)`. */
  function Powered(w: seq<real>, b: real, from: nat): real {
    if |w| == 0 then 0.0 else Prod(w[0], Pow(b, from)) + Powered(w[1..], b, from + 1)
  }

  function SumOf(w: seq<real>): real {
    if |w| == 0 then 0.0 else w[0] + SumOf(w[1..])
  }

  lemma {:induction false} PoweredUpdate(w: seq<real>, b: real, from: nat, i: nat, d: real)
    requires i < |w|
    ensures Powered(w[i := w[i] + d], b, from) == Powered(w, b, from) + Prod(d, Pow(b, from + i))
    ensures SumOf(w[i := w[i] + d]) == SumOf(w) + d
  {
    hide Prod, Pow;
    var u := w[i := w[i] + d];
    if i == 0 {
      assert u[1..] == w[1..];
      ProdLaws(Pow(b, from), w[0], d); ProdLaws(w[0] + d, Pow(b, from), d);
      ProdLaws(w[0], Pow(b, from), d); ProdLaws(d, Pow(b, from), d);
    } else {
      assert u[1..] == w[1..][i - 1 := w[1..][i - 1] + d];
      PoweredUpdate(w[1..], b, from + 1, i - 1, d);
    }
  }

  /** All the bins. */
  function Histogram(zAxis: bool, mask: Row, top: nat, ts: seq<Term>): (w: seq<real>)
    requires OnQubits(|mask|, ts)
    ensures |w| == top + 1
    ensures forall k :: 0 <= k <= top ==> w[k] == Bin(zAxis, mask, ts, k)
  {
    seq(top + 1, k requires 0 <= k <= top => Bin(zAxis, mask, ts, k))
  }

  /** The class-diagonal part of the echo: `sum |c_P|^2 R[P, P]`. */
  function DiagonalPart(v: Probe, mask: Row, ts: seq<Term>): real
    requires OnQubits(|mask|, ts)
  {
    if |ts| == 0 then 0.0
    else
      var last := |ts| - 1;
      var h := HalvesOf(v.zAxis, ts[last].p);
      DiagonalPart(v, mask, ts[..last]) + Prod(ts[last].c.Abs2(), Kernel(v, mask, h, h))
  }

  lemma KernelDiagonal(v: Probe, mask: Row, a: Halves)
    requires a.On(|mask|)
    ensures Kernel(v, mask, a, a) == Pow(v.cos, Popcount(Moving(mask, a)))
  {
    hide Kernel, Popcount, Pow, Prod;
    var n, k := |mask|, Moving(mask, a);
    KernelInClass(v, mask, a, a);
    var f := And(a.flip, k);
    assert Xor(f, f) == NoBits(n) && And(f, NoBits(n)) == NoBits(n);
    PopcountNone(n);
    PowZero(v.sin); ProdUnits(Pow(v.cos, Popcount(k)), 1.0);
  }

  lemma {:induction false} NoWeights(w: seq<real>, b: real, from: nat)
    requires forall k :: 0 <= k < |w| ==> w[k] == 0.0
    ensures Powered(w, b, from) == 0.0 && SumOf(w) == 0.0
  {
    hide Prod, Pow;
    if |w| > 0 {
      ProdUnits(Pow(b, from), 0.0);
      NoWeights(w[1..], b, from + 1);
    }
  }

  /**
   The histogram conserves the weight `sum |c|^2`, and its `cos`-weighted sum is the class-diagonal
   part of the echo.
   */
  lemma {:induction false} HistogramMeaning(v: Probe, mask: Row, top: nat, ts: seq<Term>)
    requires OnQubits(|mask|, ts) && Popcount(mask) <= top
    ensures SumOf(Histogram(v.zAxis, mask, top, ts)) == MemberNorm(MembersOf(v.zAxis, ts))
    ensures Powered(Histogram(v.zAxis, mask, top, ts), v.cos, 0) == DiagonalPart(v, mask, ts)
  {
    hide Prod, Pow, Popcount, CountOf, Complex.Abs2, Kernel, Powered, SumOf;
    var w := Histogram(v.zAxis, mask, top, ts);
    if |ts| == 0 {
      NoWeights(w, v.cos, 0);
    } else {
      var last := |ts| - 1;
      var t := ts[last];
      HistogramMeaning(v, mask, top, ts[..last]);
      var u := Histogram(v.zAxis, mask, top, ts[..last]);
      var count := CountOf(v.zAxis, mask, t.p);
      CountAtMost(v.zAxis, mask, t.p);
      assert w == u[count := u[count] + t.c.Abs2()];
      PoweredUpdate(u, v.cos, 0, count, t.c.Abs2());
      KernelDiagonal(v, mask, HalvesOf(v.zAxis, t.p));
      CountIsMoving(v.zAxis, mask, t.p);
      assert MembersOf(v.zAxis, ts)[..last] == MembersOf(v.zAxis, ts[..last]);
    }
  }

  lemma CountIsMoving(zAxis: bool, mask: Row, p: Pauli)
    requires p.On(|mask|)
    ensures CountOf(zAxis, mask, p) == Popcount(Moving(mask, HalvesOf(zAxis, p)))
  {
  }

  /** numpy's quotient: `0 / 0` is not a number. */
  datatype Quotient = Number(value: real) | NotANumber

  /** `diagonal_echo`: the power-weighted bins over the total weight. */
  method DiagonalEcho(w: seq<real>, cos: real) returns (r: Quotient)
    ensures r.Number? <==> SumOf(w) != 0.0
    ensures r.Number? ==> r.value * SumOf(w) == Powered(w, cos, 0)
  {
    hide Prod, Pow;
    var dot, sum := 0.0, 0.0;
    for i := 0 to |w|
      invariant dot + Powered(w[i..], cos, i) == Powered(w, cos, 0)
      invariant sum + SumOf(w[i..]) == SumOf(w)
    {
      assert w[i..][1..] == w[i + 1..];
      dot := dot + Prod(w[i], Pow(cos, i));
      sum := sum + w[i];
    }
    if sum == 0.0 {
      return NotANumber;
    }
    Quotients(dot, sum);
    return Number(dot / sum);
  }

  lemma Quotients(a: real, b: real)
    requires b != 0.0
    ensures a / b * b == a
  {
  }

  /** When no class holds two strings of the sum, the diagonal part is the whole echo. */
  lemma {:induction false} SingletonClasses(v: Probe, mask: Row, ts: seq<Term>)
    requires OnQubits(|mask|, ts)
    requires forall i, j :: 0 <= i < j < |ts| ==> !SameClass(mask, HalvesOf(v.zAxis, ts[i].p), HalvesOf(v.zAxis, ts[j].p))
    ensures Echo(v, mask, ts) == Real(DiagonalPart(v, mask, ts))
  {
    hide Prod, Kernel, SameClass, PairSum, Complex.Abs2, Real, HalvesOf, Complex.Plus;
    if |ts| == 0 {
      NoTerms(v, mask);
      RealZero();
    } else {
      var last := |ts| - 1;
      var ms, fewer := MembersOf(v.zAxis, ts), MembersOf(v.zAxis, ts[..last]);
      var m := ms[last];
      SingletonClasses(v, mask, ts[..last]);
      MembersOnTerms(v.zAxis, |mask|, ts); MembersOnTerms(v.zAxis, |mask|, ts[..last]);
      forall i | 0 <= i < last
        ensures Kernel(v, mask, fewer[i].h, m.h) == 0.0 && Kernel(v, mask, m.h, fewer[i].h) == 0.0
      {
        ClassSymmetric(mask, fewer[i].h, m.h);
        KernelOffClass(v, mask, fewer[i].h, m.h);
        KernelOffClass(v, mask, m.h, fewer[i].h);
      }
      PairSumZero(v, mask, fewer, [m]);
      PairSumZero(v, mask, [m], fewer);
      assert ms == fewer + [m];
      TwoGroups(v, mask, fewer, [m], ms);
      EqualPair(v, mask, m, m);
      RealPlus(DiagonalPart(v, mask, ts[..last]), Prod(m.c.Abs2(), Kernel(v, mask, m.h, m.h)));
    }
  }

  lemma ClassSymmetric(mask: Row, a: Halves, b: Halves)
    requires a.On(|mask|) && b.On(|mask|)
    ensures SameClass(mask, a, b) <==> SameClass(mask, b, a)
  {
  }

  lemma EqualPair(v: Probe, mask: Row, a: Member, b: Member)
    requires a.h.On(|mask|) && b.h.On(|mask|) && a.c == b.c
    ensures PairSum(v, mask, [a], [b]) == Real(Prod(a.c.Abs2(), Kernel(v, mask, a.h, b.h)))
  {
    hide RowSum, PairSum, Kernel, PairWeight, Prod, Complex.Abs2, Real, Complex.Times;
    PairSumOne(v, mask, a, [b]);
    RowSumOne(v, mask, a, b);
    WeightUnfold(v, mask, a, b);
    ConjSelf(a.c);
    RealProd(a.c.Abs2(), Kernel(v, mask, a.h, b.h));
  }

  // ---- Orthogonality ----

  function Prefixed(s: bool, f: bool, hs: seq<Halves>): (r: seq<Halves>)
    ensures |r| == |hs| && forall i :: 0 <= i < |hs| ==> r[i] == Halves([s] + hs[i].sel, [f] + hs[i].flip)
  {
    seq(|hs|, i requires 0 <= i < |hs| => Halves([s] + hs[i].sel, [f] + hs[i].flip))
  }

  predicate HalvesOn(n: nat, hs: seq<Halves>) {
    forall i :: 0 <= i < |hs| ==> hs[i].On(n)
  }

  /** All `4^n` strings. */
  function AllHalves(n: nat): (r: seq<Halves>)
    ensures HalvesOn(n, r)
  {
    if n == 0 then [Halves([], [])]
    else
      var rest := AllHalves(n - 1);
      Prefixed(false, false, rest) + Prefixed(false, true, rest) + Prefixed(true, false, rest) + Prefixed(true, true, rest)
  }

  lemma PrefixedHas(hs: seq<Halves>, h: Halves, n: nat)
    requires h.On(n) && n > 0 && TailOf(h) in hs
    ensures h in Prefixed(h.sel[0], h.flip[0], hs)
  {
    var i :| 0 <= i < |hs| && hs[i] == TailOf(h);
    assert [h.sel[0]] + h.sel[1..] == h.sel && [h.flip[0]] + h.flip[1..] == h.flip;
    assert Prefixed(h.sel[0], h.flip[0], hs)[i] == h;
  }

  lemma ListStep(n: nat, s: bool, f: bool, h: Halves)
    ensures n == 0 ==> AllHalves(n) == [Halves([], [])]
    ensures n > 0 ==> |AllHalves(n)| == 4 * |AllHalves(n - 1)|
    ensures n > 0 && h in Prefixed(s, f, AllHalves(n - 1)) ==> h in AllHalves(n)
  {
    hide HalvesOn;
  }

  /** Every string is listed, and there are `4^n` of them. */
  lemma {:induction false} AllListed(n: nat, h: Halves)
    requires h.On(n)
    ensures |AllHalves(n)| == Pow2(2 * n) && h in AllHalves(n)
  {
    hide HalvesOn, Prefixed, AllHalves;
    if n > 0 {
      AllListed(n - 1, TailOf(h));
      PrefixedHas(AllHalves(n - 1), h, n);
      ListStep(n, h.sel[0], h.flip[0], h);
      assert Pow2(2 * n) == 4 * Pow2(2 * (n - 1));
    } else {
      ListStep(n, false, false, h);
      assert h.sel == [] && h.flip == [];
    }
  }

  /** `sum_Q R[P, Q] R[P', Q]`. */
  function RowDot(v: Probe, mask: Row, a: Halves, b: Halves, hs: seq<Halves>): real
    requires a.On(|mask|) && b.On(|mask|) && HalvesOn(|mask|, hs)
  {
    if |hs| == 0 then 0.0
    else Prod(Kernel(v, mask, a, hs[0]), Kernel(v, mask, b, hs[0])) + RowDot(v, mask, a, b, hs[1..])
  }

  lemma {:induction false} RowDotConcat(v: Probe, mask: Row, a: Halves, b: Halves, hs: seq<Halves>, ks: seq<Halves>)
    requires a.On(|mask|) && b.On(|mask|) && HalvesOn(|mask|, hs) && HalvesOn(|mask|, ks)
    ensures RowDot(v, mask, a, b, hs + ks) == RowDot(v, mask, a, b, hs) + RowDot(v, mask, a, b, ks)
  {
    hide Prod, Kernel;
    if |hs| == 0 {
      assert hs + ks == ks;
    } else {
      assert (hs + ks)[1..] == hs[1..] + ks;
      RowDotConcat(v, mask, a, b, hs[1..], ks);
    }
  }

  lemma {:induction false} RowDotPrefixed(v: Probe, mask: Row, a: Halves, b: Halves, s: bool, f: bool, hs: seq<Halves>)
    requires a.On(|mask|) && b.On(|mask|) && |mask| > 0 && HalvesOn(|mask| - 1, hs)
    ensures HalvesOn(|mask|, Prefixed(s, f, hs))
    ensures RowDot(v, mask, a, b, Prefixed(s, f, hs))
         == Prod(Prod(SiteFactor(v, mask[0], a.sel[0], a.flip[0], s, f), SiteFactor(v, mask[0], b.sel[0], b.flip[0], s, f)),
                 RowDot(v, mask[1..], TailOf(a), TailOf(b), hs))
  {
    hide Prod, Kernel, SiteFactor;
    var x := SiteFactor(v, mask[0], a.sel[0], a.flip[0], s, f);
    var y := SiteFactor(v, mask[0], b.sel[0], b.flip[0], s, f);
    if |hs| == 0 {
      ProdUnits(Prod(x, y), 0.0);
    } else {
      var ps := Prefixed(s, f, hs);
      assert ps[1..] == Prefixed(s, f, hs[1..]);
      RowDotPrefixed(v, mask, a, b, s, f, hs[1..]);
      assert TailOf(ps[0]) == hs[0];
      KernelStep(v, mask, a, ps[0]); KernelStep(v, mask, b, ps[0]);
      var k, l := Kernel(v, mask[1..], TailOf(a), hs[0]), Kernel(v, mask[1..], TailOf(b), hs[0]);
      FourProducts(x, k, y, l);
      ProdLaws(Prod(x, y), Prod(k, l), RowDot(v, mask[1..], TailOf(a), TailOf(b), hs[1..]));
    }
  }

  lemma FourProducts(x: real, k: real, y: real, l: real)
    ensures Prod(Prod(x, k), Prod(y, l)) == Prod(Prod(x, y), Prod(k, l))
  {
    hide *;
    ProdLaws(Prod(x, k), y, l);
    ProdLaws(y, Prod(x, k), l); ProdLaws(y, x, k); ProdLaws(x, y, k);
    ProdLaws(Prod(x, y), k, l);
  }

  /** One qubit's factors form an orthogonal 4 by 4 matrix. */
  lemma SiteOrthogonal(v: Probe, m: bool, s: bool, f: bool, s': bool, f': bool)
    requires v.cos * v.cos + v.sin * v.sin == 1.0
    ensures
      Prod(SiteFactor(v, m, s, f, false, false), SiteFactor(v, m, s', f', false, false))
      + Prod(SiteFactor(v, m, s, f, false, true), SiteFactor(v, m, s', f', false, true))
      + Prod(SiteFactor(v, m, s, f, true, false), SiteFactor(v, m, s', f', true, false))
      + Prod(SiteFactor(v, m, s, f, true, true), SiteFactor(v, m, s', f', true, true))
      == if s == s' && f == f' then 1.0 else 0.0
  {
    hide SiteFactor;
    assert Prod(v.cos, v.cos) + Prod(v.sin, v.sin) == 1.0;
    SiteProducts(v, m, s, f, s', f');
  }

  lemma SiteProducts(v: Probe, m: bool, s: bool, f: bool, s': bool, f': bool)
    requires Prod(v.cos, v.cos) + Prod(v.sin, v.sin) == 1.0
    ensures
      Prod(SiteFactor(v, m, s, f, false, false), SiteFactor(v, m, s', f', false, false))
      + Prod(SiteFactor(v, m, s, f, false, true), SiteFactor(v, m, s', f', false, true))
      + Prod(SiteFactor(v, m, s, f, true, false), SiteFactor(v, m, s', f', true, false))
      + Prod(SiteFactor(v, m, s, f, true, true), SiteFactor(v, m, s', f', true, true))
      == if s == s' && f == f' then 1.0 else 0.0
  {
    hide Prod;
    var c, z := v.cos, v.sin;
    ProdUnits(1.0, 1.0); ProdUnits(0.0, 0.0); ProdUnits(1.0, 0.0);
    ProdUnits(c, z); ProdUnits(z, c); ProdUnits(c, c); ProdUnits(z, z); ProdUnits(z, -z); ProdUnits(-z, z); ProdUnits(-z, c);
    ProdLaws(c, z, z); ProdLaws(c, -z, z); ProdLaws(z, -z, c);
  }

  /** The echo kernel is orthogonal: over all strings, distinct rows are perpendicular and every row has norm one. */
  lemma {:induction false} KernelOrthogonal(v: Probe, mask: Row, a: Halves, b: Halves)
    requires a.On(|mask|) && b.On(|mask|) && v.cos * v.cos + v.sin * v.sin == 1.0
    ensures RowDot(v, mask, a, b, AllHalves(|mask|)) == if a == b then 1.0 else 0.0
    decreases |mask|
  {
    hide RowDot, AllHalves, SiteFactor, Prod, Kernel;
    if |mask| == 0 {
      NoQubits(v, mask, a, b);
    } else {
      var tail := mask[1..];
      var rest := AllHalves(|tail|);
      KernelOrthogonal(v, tail, TailOf(a), TailOf(b));
      OrthogonalStep(v, mask, a, b);
      SiteOrthogonal(v, mask[0], a.sel[0], a.flip[0], b.sel[0], b.flip[0]);
      HeadTail(a.sel, b.sel); HeadTail(a.flip, b.flip);
      ProdUnits(1.0, 1.0); ProdUnits(0.0, 0.0); ProdUnits(1.0, 0.0);
    }
  }

  lemma NoQubits(v: Probe, mask: Row, a: Halves, b: Halves)
    requires a.On(|mask|) && b.On(|mask|) && |mask| == 0
    ensures RowDot(v, mask, a, b, AllHalves(0)) == 1.0 && a == b
  {
    var hs := AllHalves(0);
    assert a.sel == b.sel && a.flip == b.flip;
    assert Kernel(v, mask, a, hs[0]) == 1.0 && Kernel(v, mask, b, hs[0]) == 1.0;
    assert RowDot(v, mask, a, b, hs[1..]) == 0.0;
    ProdUnits(1.0, 1.0);
  }

  lemma OrthogonalStep(v: Probe, mask: Row, a: Halves, b: Halves)
    requires a.On(|mask|) && b.On(|mask|) && |mask| > 0
    ensures RowDot(v, mask, a, b, AllHalves(|mask|))
         == Prod(Prod(SiteFactor(v, mask[0], a.sel[0], a.flip[0], false, false), SiteFactor(v, mask[0], b.sel[0], b.flip[0], false, false))
                 + Prod(SiteFactor(v, mask[0], a.sel[0], a.flip[0], false, true), SiteFactor(v, mask[0], b.sel[0], b.flip[0], false, true))
                 + Prod(SiteFactor(v, mask[0], a.sel[0], a.flip[0], true, false), SiteFactor(v, mask[0], b.sel[0], b.flip[0], true, false))
                 + Prod(SiteFactor(v, mask[0], a.sel[0], a.flip[0], true, true), SiteFactor(v, mask[0], b.sel[0], b.flip[0], true, true)),
                 RowDot(v, mask[1..], TailOf(a), TailOf(b), AllHalves(|mask| - 1)))
  {
    hide RowDot, SiteFactor, Prod, Kernel;
    var rest := AllHalves(|mask| - 1);
    var d := RowDot(v, mask[1..], TailOf(a), TailOf(b), rest);
    var p, q, r, s := Prefixed(false, false, rest), Prefixed(false, true, rest), Prefixed(true, false, rest), Prefixed(true, true, rest);
    RowDotPrefixed(v, mask, a, b, false, false, rest);
    RowDotPrefixed(v, mask, a, b, false, true, rest);
    RowDotPrefixed(v, mask, a, b, true, false, rest);
    RowDotPrefixed(v, mask, a, b, true, true, rest);
    RowDotConcat(v, mask, a, b, p, q);
    RowDotConcat(v, mask, a, b, p + q, r);
    RowDotConcat(v, mask, a, b, p + q + r, s);
    FourTerms(
      Prod(SiteFactor(v, mask[0], a.sel[0], a.flip[0], false, false), SiteFactor(v, mask[0], b.sel[0], b.flip[0], false, false)),
      Prod(SiteFactor(v, mask[0], a.sel[0], a.flip[0], false, true), SiteFactor(v, mask[0], b.sel[0], b.flip[0], false, true)),
      Prod(SiteFactor(v, mask[0], a.sel[0], a.flip[0], true, false), SiteFactor(v, mask[0], b.sel[0], b.flip[0], true, false)),
      Prod(SiteFactor(v, mask[0], a.sel[0], a.flip[0], true, true), SiteFactor(v, mask[0], b.sel[0], b.flip[0], true, true)), d);
  }

  lemma FourTerms(w: real, x: real, y: real, z: real, d: real)
    ensures Prod(w + x + y + z, d) == Prod(w, d) + Prod(x, d) + Prod(y, d) + Prod(z, d)
  {
  }
}
