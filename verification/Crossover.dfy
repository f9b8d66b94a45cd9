/**
 The head-to-head timing study: pair verdicts, the median, and where along the size axis the faster engine
 changes.
 */
module Crossover {

  datatype Option<T> = None | Some(value: T)

  // ---- Pairs ----

  /** One timed pair of runs. */
  datatype Pair = Pair(rust: real, julia: real)

  datatype Verdict = Paulistrings | Julia | Indistinguishable

  datatype Failure = NoPairs | BadRuntime(index: nat)

  datatype Outcome<T> = Ok(value: T) | Err(error: Failure)

  predicate Timed(p: Pair) {
    p.rust > 0.0 && p.julia > 0.0
  }

  function Ratio(p: Pair): real
    requires Timed(p)
  {
    p.julia / p.rust
  }

  predicate AllTimed(pairs: seq<Pair>) {
    forall i :: 0 <= i < |pairs| ==> Timed(pairs[i])
  }

  function Ratios(pairs: seq<Pair>): (r: seq<real>)
    requires AllTimed(pairs)
    ensures |r| == |pairs| && forall i :: 0 <= i < |pairs| ==> r[i] == Ratio(pairs[i])
  {
    seq(|pairs|, i requires 0 <= i < |pairs| => Ratio(pairs[i]))
  }

  /** `pair_ratios`: the first non-positive runtime raises. */
  method PairRatios(pairs: seq<Pair>) returns (r: Outcome<seq<real>>)
    ensures r.Ok? <==> forall i :: 0 <= i < |pairs| ==> pairs[i].rust > 0.0 && pairs[i].julia > 0.0
    ensures r.Ok? ==> AllTimed(pairs) && r.value == Ratios(pairs)
    ensures r.Ok? ==> |r.value| == |pairs| && forall i :: 0 <= i < |pairs| ==> r.value[i] * pairs[i].rust == pairs[i].julia
    ensures r.Err? ==> r.error.BadRuntime? && r.error.index < |pairs| && !Timed(pairs[r.error.index])
                       && forall i :: 0 <= i < r.error.index ==> Timed(pairs[i])
  {
    var ratios: seq<real> := [];
    for i := 0 to |pairs|
      invariant |ratios| == i && forall j :: 0 <= j < i ==> Timed(pairs[j]) && ratios[j] == Ratio(pairs[j])
    {
      if !Timed(pairs[i]) {
        return Err(BadRuntime(i));
      }
      ratios := ratios + [Ratio(pairs[i])];
    }
    assert ratios == Ratios(pairs);
    forall i | 0 <= i < |pairs| ensures ratios[i] * pairs[i].rust == pairs[i].julia {
      RatioMeans(pairs[i]);
    }
    return Ok(ratios);
  }

  /** The ratio is above 1 exactly when the first engine was faster, and below 1 exactly when the second was. */
  lemma RatioMeans(p: Pair)
    requires Timed(p)
    ensures Ratio(p) * p.rust == p.julia
    ensures Ratio(p) > 1.0 <==> p.rust < p.julia
    ensures Ratio(p) < 1.0 <==> p.julia < p.rust
  {
    var q := p.julia / p.rust;
    assert q * p.rust == p.julia;
    RatioSides(q, p.rust, p.julia);
  }

  lemma RatioSides(q: real, d: real, e: real)
    requires d > 0.0 && q * d == e
    ensures (q > 1.0 <==> d < e) && (q < 1.0 <==> e < d)
  {
    assert (q - 1.0) * d == e - d;
    SignOfFactor(q - 1.0, d);
  }

  lemma SignOfFactor(f: real, d: real)
    requires d > 0.0
    ensures (f > 0.0 <==> f * d > 0.0) && (f < 0.0 <==> f * d < 0.0)
  {
  }

  // ---- The median ----

  predicate Ascending(s: seq<real>) {
    forall i, j :: 0 <= i < j < |s| ==> s[i] <= s[j]
  }

  function Insert(x: real, s: seq<real>): seq<real> {
    if |s| == 0 || x <= s[0] then [x] + s else [s[0]] + Insert(x, s[1..])
  }

  function Sort(s: seq<real>): seq<real> {
    if |s| == 0 then [] else Insert(s[|s| - 1], Sort(s[..|s| - 1]))
  }

  lemma {:induction false} InsertContents(x: real, s: seq<real>)
    ensures multiset(Insert(x, s)) == multiset(s) + multiset{x}
    ensures forall y :: y in Insert(x, s) <==> y == x || y in s
  {
    if |s| > 0 && x > s[0] {
      InsertContents(x, s[1..]);
      assert s == [s[0]] + s[1..];
    }
  }

  lemma {:induction false} InsertAscending(x: real, s: seq<real>)
    requires Ascending(s)
    ensures Ascending(Insert(x, s))
  {
    hide Ascending;
    if |s| == 0 || x <= s[0] {
      AscendingFront(x, s);
    } else {
      AscendingTail(s);
      InsertAscending(x, s[1..]);
      InsertContents(x, s[1..]);
      var rest := Insert(x, s[1..]);
      forall j | 0 <= j < |rest| ensures s[0] <= rest[j] {
        assert rest[j] in rest;
      }
      LeastFront(s[0], rest);
    }
  }

  lemma AscendingFront(x: real, s: seq<real>)
    requires Ascending(s) && (|s| == 0 || x <= s[0])
    ensures Ascending([x] + s)
  {
  }

  lemma AscendingTail(s: seq<real>)
    requires Ascending(s) && |s| > 0
    ensures Ascending(s[1..]) && forall y :: y in s[1..] ==> s[0] <= y
  {
  }

  lemma LeastFront(x: real, s: seq<real>)
    requires Ascending(s) && forall j :: 0 <= j < |s| ==> x <= s[j]
    ensures Ascending([x] + s)
  {
  }

  lemma {:induction false} SortLaws(s: seq<real>)
    ensures Ascending(Sort(s)) && multiset(Sort(s)) == multiset(s) && |Sort(s)| == |s|
    ensures forall y :: y in Sort(s) <==> y in s
  {
    if |s| > 0 {
      var k := |s| - 1;
      SortLaws(s[..k]);
      InsertAscending(s[k], Sort(s[..k]));
      InsertContents(s[k], Sort(s[..k]));
      assert s == s[..k] + [s[k]];
      assert |multiset(Sort(s))| == |Sort(s)| && |multiset(s)| == |s|;
    }
  }

  /** `statistics.median`: the middle value, or the mean of the middle two. */
  function Median(s: seq<real>): real
    requires |s| > 0
  {
    SortLaws(s);
    var t := Sort(s);
    var h := |s| / 2;
    if |s| % 2 == 1 then t[h] else (t[h - 1] + t[h]) / 2.0
  }

  // ---- The rank of the median ----

  /** How many values are below `x`. */
  function Below(s: seq<real>, x: real): (c: nat) {
    if |s| == 0 then 0 else Below(s[..|s| - 1], x) + if s[|s| - 1] < x then 1 else 0
  }

  /** How many values are at most `x`. */
  function AtMost(s: seq<real>, x: real): (c: nat) {
    if |s| == 0 then 0 else AtMost(s[..|s| - 1], x) + if s[|s| - 1] <= x then 1 else 0
  }

  lemma {:induction false} CountsConcat(a: seq<real>, b: seq<real>, x: real)
    ensures Below(a + b, x) == Below(a, x) + Below(b, x) && AtMost(a + b, x) == AtMost(a, x) + AtMost(b, x)
  {
    if |b| == 0 {
      assert a + b == a;
    } else {
      assert (a + b)[..|a + b| - 1] == a + b[..|b| - 1];
      CountsConcat(a, b[..|b| - 1], x);
    }
  }

  lemma CountsOne(y: real, x: real)
    ensures Below([y], x) == (if y < x then 1 else 0) && AtMost([y], x) == if y <= x then 1 else 0
  {
    assert [y][..0] == [];
  }

  lemma {:induction false} InsertCounts(y: real, s: seq<real>, x: real)
    ensures Below(Insert(y, s), x) == Below([y], x) + Below(s, x) && AtMost(Insert(y, s), x) == AtMost([y], x) + AtMost(s, x)
  {
    hide Below, AtMost;
    if |s| == 0 || y <= s[0] {
      CountsConcat([y], s, x);
    } else {
      InsertCounts(y, s[1..], x);
      CountsConcat([s[0]], Insert(y, s[1..]), x);
      CountsConcat([s[0]], s[1..], x);
      assert s == [s[0]] + s[1..];
    }
  }

  lemma {:induction false} SortCounts(s: seq<real>, x: real)
    ensures Below(Sort(s), x) == Below(s, x) && AtMost(Sort(s), x) == AtMost(s, x)
  {
    if |s| > 0 {
      var k := |s| - 1;
      SortCounts(s[..k], x);
      InsertCounts(s[k], Sort(s[..k]), x);
      CountsOne(s[k], x);
    }
  }

  lemma {:induction false} CountBounds(s: seq<real>, x: real)
    ensures Below(s, x) <= |s| && AtMost(s, x) <= |s|
    ensures (forall i :: 0 <= i < |s| ==> s[i] >= x) ==> Below(s, x) == 0
    ensures (forall i :: 0 <= i < |s| ==> s[i] <= x) ==> AtMost(s, x) == |s|
  {
    if |s| > 0 {
      CountBounds(s[..|s| - 1], x);
    }
  }

  /** In an ascending list, entry `k` has at most `k` values below it and more than `k` at most it. */
  lemma SortedRank(t: seq<real>, k: nat)
    requires Ascending(t) && k < |t|
    ensures Below(t, t[k]) <= k < AtMost(t, t[k])
  {
    hide Below, AtMost;
    var a, b, c, d := t[..k], t[k..], t[..k + 1], t[k + 1..];
    assert t == a + b && t == c + d;
    BelowSplit(a, b, t[k]);
    AtMostSplit(c, d, t[k]);
  }

  lemma BelowSplit(a: seq<real>, b: seq<real>, x: real)
    requires forall i :: 0 <= i < |b| ==> b[i] >= x
    ensures Below(a + b, x) <= |a|
  {
    CountsConcat(a, b, x);
    CountBounds(a, x); CountBounds(b, x);
  }

  lemma AtMostSplit(a: seq<real>, b: seq<real>, x: real)
    requires forall i :: 0 <= i < |a| ==> a[i] <= x
    ensures AtMost(a + b, x) >= |a|
  {
    CountsConcat(a, b, x);
    CountBounds(a, x);
  }

  /** Value number `k`, counted from 0 in ascending order: the only one with at most `k` values below it and more than `k` not above it. */
  predicate Ranked(s: seq<real>, k: nat, x: real) {
    x in s && Below(s, x) <= k < AtMost(s, x)
  }

  /** The median is the mean of the two middle values, which coincide when the number of values is odd. */
  lemma MedianRank(s: seq<real>) returns (lo: real, hi: real)
    requires |s| > 0
    ensures Ranked(s, (|s| - 1) / 2, lo) && Ranked(s, |s| / 2, hi)
    ensures 2.0 * Median(s) == lo + hi
  {
    hide Sort, Below, AtMost;
    SortLaws(s);
    var t, k, h := Sort(s), (|s| - 1) / 2, |s| / 2;
    lo, hi := t[k], t[h];
    assert lo in t && hi in t;
    SortedRank(t, k); SortedRank(t, h);
    SortCounts(s, lo); SortCounts(s, hi);
  }

  /** Ranks determine values, so the law above determines the median. */
  lemma RankUnique(s: seq<real>, k: nat, x: real, y: real)
    requires Ranked(s, k, x) && Ranked(s, k, y)
    ensures x == y
  {
    hide Below, AtMost;
    CountsOrdered(s, x, y); CountsOrdered(s, y, x);
  }

  lemma {:induction false} CountsOrdered(s: seq<real>, x: real, y: real)
    ensures x < y ==> AtMost(s, x) <= Below(s, y)
  {
    if |s| > 0 {
      CountsOrdered(s[..|s| - 1], x, y);
    }
  }

  /** A median lies strictly on the side of `x` where all the values lie. */
  lemma MedianSide(s: seq<real>, x: real)
    requires |s| > 0
    ensures (forall i :: 0 <= i < |s| ==> s[i] > x) ==> Median(s) > x
    ensures (forall i :: 0 <= i < |s| ==> s[i] < x) ==> Median(s) < x
    ensures (forall i :: 0 <= i < |s| ==> s[i] > 0.0) ==> Median(s) > 0.0
  {
    hide Sort;
    SortLaws(s);
    var t, h := Sort(s), |s| / 2;
    assert t[h] in t;
    if |s| % 2 == 0 {
      assert t[h - 1] in t;
    }
  }

  // ---- One configuration ----

  datatype Point = Point(terms: nat, median: real, consistent: bool, verdict: Verdict)

  predicate AllFaster(ratios: seq<real>) {
    forall i :: 0 <= i < |ratios| ==> ratios[i] > 1.0
  }

  predicate AllSlower(ratios: seq<real>) {
    forall i :: 0 <= i < |ratios| ==> ratios[i] < 1.0
  }

  /** Which engine won a pair; `None` is a tie. */
  function Faster(r: real): Option<Verdict> {
    if r > 1.0 then Some(Paulistrings) else if r < 1.0 then Some(Julia) else None
  }

  /**
   `analyze_pairs`: a runtime error comes first, then the empty list; the verdict needs every pair to agree,
   and a tie agrees with nothing.
   */
  method AnalyzePairs(terms: nat, pairs: seq<Pair>) returns (r: Outcome<Point>)
    ensures r.Ok? <==> |pairs| > 0 && forall i :: 0 <= i < |pairs| ==> pairs[i].rust > 0.0 && pairs[i].julia > 0.0
    ensures r == Err(NoPairs) <==> |pairs| == 0
    ensures r.Err? && |pairs| > 0 ==>
              && r.error.BadRuntime? && r.error.index < |pairs| && !Timed(pairs[r.error.index])
              && forall i :: 0 <= i < r.error.index ==> Timed(pairs[i])
    ensures r.Ok? ==> AnalysisOf(terms, pairs, r.value)
    ensures r.Ok? ==> (r.value.verdict == Paulistrings <==> forall i :: 0 <= i < |pairs| ==> pairs[i].rust < pairs[i].julia)
    ensures r.Ok? ==> (r.value.verdict == Julia <==> forall i :: 0 <= i < |pairs| ==> pairs[i].julia < pairs[i].rust)
    ensures r.Ok? ==> (r.value.consistent <==> r.value.verdict != Indistinguishable)
  {
    hide Sort;
    var ratios := PairRatios(pairs);
    if ratios.Err? {
      return Err(ratios.error);
    }
    var seen: set<Option<Verdict>> := {};
    for i := 0 to |pairs|
      invariant forall v :: v in seen <==> exists j :: 0 <= j < i && Faster(ratios.value[j]) == v
      invariant i > 0 ==> Faster(ratios.value[0]) in seen
    {
      seen := seen + {Faster(ratios.value[i])};
    }
    if |pairs| == 0 {
      return Err(NoPairs);
    }
    var consistent := |seen| == 1 && None !in seen;
    var first := Faster(ratios.value[0]);
    if |seen| == 1 {
      OneElement(seen, first);
    }
    Consistency(ratios.value, seen);
    Sides(pairs);
    var median := Median(ratios.value);
    return Ok(Point(terms, median, consistent, if consistent then first.value else Indistinguishable));
  }

  lemma Sides(pairs: seq<Pair>)
    requires AllTimed(pairs)
    ensures AllFaster(Ratios(pairs)) <==> forall i :: 0 <= i < |pairs| ==> pairs[i].rust < pairs[i].julia
    ensures AllSlower(Ratios(pairs)) <==> forall i :: 0 <= i < |pairs| ==> pairs[i].julia < pairs[i].rust
  {
    hide Ratio;
    var ratios := Ratios(pairs);
    forall i | 0 <= i < |pairs| ensures (ratios[i] > 1.0 <==> pairs[i].rust < pairs[i].julia) && (ratios[i] < 1.0 <==> pairs[i].julia < pairs[i].rust) {
      RatioMeans(pairs[i]);
    }
  }

  lemma OneElement<T>(s: set<T>, x: T)
    requires |s| == 1 && x in s
    ensures s == {x}
  {
    assert |s - {x}| == 0;
  }

  /** One element that is not a tie, against the pairwise statement. */
  lemma Consistency(ratios: seq<real>, seen: set<Option<Verdict>>)
    requires |ratios| > 0 && forall v :: v in seen <==> exists j :: 0 <= j < |ratios| && Faster(ratios[j]) == v
    ensures |seen| == 1 && None !in seen <==> AllFaster(ratios) || AllSlower(ratios)
  {
    var first := Faster(ratios[0]);
    assert first in seen;
    assert forall j :: 0 <= j < |ratios| ==> Faster(ratios[j]) in seen;
    if |seen| == 1 && None !in seen {
      OneElement(seen, first);
      forall j | 0 <= j < |ratios| ensures Faster(ratios[j]) == first {
        assert Faster(ratios[j]) in seen;
      }
    }
    if AllFaster(ratios) || AllSlower(ratios) {
      forall v | v in seen ensures v == first {
        var j :| 0 <= j < |ratios| && Faster(ratios[j]) == v;
      }
      assert seen == {first};
    }
  }

  ghost predicate AnalysisOf(terms: nat, pairs: seq<Pair>, p: Point) {
    && AllTimed(pairs) && |pairs| > 0
    && p.terms == terms && p.median == Median(Ratios(pairs))
    && p.consistent == (AllFaster(Ratios(pairs)) || AllSlower(Ratios(pairs)))
    && p.verdict == if !p.consistent then Indistinguishable else if AllFaster(Ratios(pairs)) then Paulistrings else Julia
  }

  /** A consistent point's median is strictly on its verdict's side of 1. */
  predicate OnItsSide(p: Point) {
    p.median > 0.0 && (p.consistent ==> (p.verdict == Paulistrings && p.median > 1.0) || (p.verdict == Julia && p.median < 1.0))
  }

  lemma AnalysisOnItsSide(terms: nat, pairs: seq<Pair>, p: Point)
    requires AnalysisOf(terms, pairs, p)
    ensures OnItsSide(p)
  {
    hide Median;
    var ratios := Ratios(pairs);
    MedianSide(ratios, 1.0);
    forall i | 0 <= i < |ratios| ensures ratios[i] > 0.0 {
      QuotientPositive(pairs[i].julia, pairs[i].rust);
    }
  }

  lemma QuotientPositive(a: real, b: real)
    requires a > 0.0 && b > 0.0
    ensures a / b > 0.0
  {
    if a / b <= 0.0 {
      QuotientBack(a, b);
    }
  }

  lemma QuotientBack(a: real, b: real)
    requires b > 0.0
    ensures a / b <= 0.0 ==> a <= 0.0
  {
    var x := a / b;
    assert x * b == a;
    if x <= 0.0 {
      assert x * b <= 0.0;
    }
  }

  // ---- The sweep ----

  datatype Zone = Zone(lo: nat, hi: nat, configs: nat)

  /** Configurations whose pairs disagreed. */
  function MixedCount(points: seq<Point>): nat {
    if |points| == 0 then 0 else MixedCount(points[..|points| - 1]) + if points[|points| - 1].consistent then 0 else 1
  }

  /** Their positions. */
  function Mixed(points: seq<Point>): set<nat> {
    set i | 0 <= i < |points| && !points[i].consistent
  }

  lemma {:induction false} MixedCounted(points: seq<Point>)
    ensures MixedCount(points) == |Mixed(points)|
  {
    if |points| > 0 {
      var k := |points| - 1;
      MixedCounted(points[..k]);
      if points[k].consistent {
        assert Mixed(points) == Mixed(points[..k]);
      } else {
        assert Mixed(points) == Mixed(points[..k]) + {k};
      }
    }
  }

  /** The tight span of the mixed configurations, with their number; none when there are none. */
  ghost predicate ZoneOf(points: seq<Point>, r: Option<Zone>) {
    && (r == None <==> Mixed(points) == {})
    && (r.Some? ==>
          && r.value.configs == |Mixed(points)|
          && (forall i :: 0 <= i < |points| && !points[i].consistent ==> r.value.lo <= points[i].terms <= r.value.hi)
          && (exists i :: 0 <= i < |points| && !points[i].consistent && points[i].terms == r.value.lo)
          && (exists i :: 0 <= i < |points| && !points[i].consistent && points[i].terms == r.value.hi))
  }

  lemma {:induction false} NoneMixed(points: seq<Point>)
    ensures MixedCount(points) == 0 <==> forall i :: 0 <= i < |points| ==> points[i].consistent
  {
    if |points| > 0 {
      NoneMixed(points[..|points| - 1]);
    }
  }

  /** `indistinguishable_zone`: none exactly when every configuration was consistent. */
  method IndistinguishableZone(points: seq<Point>) returns (r: Option<Zone>)
    ensures r == None <==> forall i :: 0 <= i < |points| ==> points[i].consistent
    ensures ZoneOf(points, r)
  {
    r := None;
    ghost var a, b := 0, 0;
    for k := 0 to |points|
      invariant r == None <==> MixedCount(points[..k]) == 0
      invariant r.Some? ==> r.value.configs == MixedCount(points[..k])
      invariant r.Some? ==> forall i :: 0 <= i < k && !points[i].consistent ==> r.value.lo <= points[i].terms <= r.value.hi
      invariant r.Some? ==> 0 <= a < k && !points[a].consistent && points[a].terms == r.value.lo
      invariant r.Some? ==> 0 <= b < k && !points[b].consistent && points[b].terms == r.value.hi
    {
      var p := points[k];
      NoneMixed(points[..k]);
      assert points[..k + 1][..k] == points[..k];
      if !p.consistent {
        if r.None? {
          assert forall i :: 0 <= i < k ==> points[..k][i] == points[i];
          r := Some(Zone(p.terms, p.terms, 1));
          a, b := k, k;
        } else {
          var zone := r.value;
          if p.terms < zone.lo {
            a := k;
          }
          if p.terms > zone.hi {
            b := k;
          }
          r := Some(Zone(if p.terms < zone.lo then p.terms else zone.lo, if p.terms > zone.hi then p.terms else zone.hi, zone.configs + 1));
        }
      }
    }
    assert points[..|points|] == points;
    NoneMixed(points);
    MixedCounted(points);
  }

  function Place(p: Point, s: seq<Point>): seq<Point> {
    if |s| == 0 || p.terms < s[0].terms then [p] + s else [s[0]] + Place(p, s[1..])
  }

  /** The consistent points in order of size; equal sizes keep their order. */
  function Usable(points: seq<Point>): seq<Point> {
    if |points| == 0 then []
    else
      var k := |points| - 1;
      if points[k].consistent then Place(points[k], Usable(points[..k])) else Usable(points[..k])
  }

  predicate BySize(s: seq<Point>) {
    forall i, j :: 0 <= i < j < |s| ==> s[i].terms <= s[j].terms
  }

  lemma {:induction false} PlaceLaws(p: Point, s: seq<Point>)
    requires BySize(s)
    ensures BySize(Place(p, s)) && |Place(p, s)| == |s| + 1
    ensures forall q :: q in Place(p, s) <==> q == p || q in s
  {
    if |s| > 0 && p.terms >= s[0].terms {
      var rest := Place(p, s[1..]);
      PlaceLaws(p, s[1..]);
      assert s == [s[0]] + s[1..];
      forall j | 0 <= j < |rest| ensures s[0].terms <= rest[j].terms {
        assert rest[j] in rest;
      }
    }
  }

  lemma {:induction false} PlaceContents(p: Point, s: seq<Point>)
    ensures multiset(Place(p, s)) == multiset(s) + multiset{p}
  {
    if |s| > 0 && p.terms >= s[0].terms {
      PlaceContents(p, s[1..]);
      assert s == [s[0]] + s[1..];
    }
  }

  /** The points of one size, in order. */
  function OfSize(t: nat, s: seq<Point>): seq<Point> {
    if |s| == 0 then [] else (if s[0].terms == t then [s[0]] else []) + OfSize(t, s[1..])
  }

  lemma {:induction false} OfSizeNone(t: nat, s: seq<Point>)
    requires forall i :: 0 <= i < |s| ==> s[i].terms != t
    ensures OfSize(t, s) == []
  {
    if |s| > 0 {
      OfSizeNone(t, s[1..]);
    }
  }

  /** A point is placed after the others of its size. */
  lemma {:induction false} PlaceStable(t: nat, p: Point, s: seq<Point>)
    requires BySize(s)
    ensures OfSize(t, Place(p, s)) == OfSize(t, s) + if p.terms == t then [p] else []
  {
    if |s| == 0 {
      assert Place(p, s)[1..] == [];
    } else if p.terms < s[0].terms {
      assert Place(p, s)[1..] == s;
      if p.terms == t {
        OfSizeNone(t, s);
      }
    } else {
      assert Place(p, s)[1..] == Place(p, s[1..]);
      PlaceStable(t, p, s[1..]);
    }
  }

  /** The consistent points, in input order. */
  function Consistent(points: seq<Point>): seq<Point> {
    if |points| == 0 then []
    else if points[|points| - 1].consistent then Consistent(points[..|points| - 1]) + [points[|points| - 1]]
    else Consistent(points[..|points| - 1])
  }

  lemma {:induction false} OfSizeConcat(t: nat, a: seq<Point>, b: seq<Point>)
    ensures OfSize(t, a + b) == OfSize(t, a) + OfSize(t, b)
  {
    if |a| == 0 {
      assert a + b == b;
    } else {
      assert (a + b)[1..] == a[1..] + b;
      OfSizeConcat(t, a[1..], b);
    }
  }

  lemma {:induction false} UsableOrdered(points: seq<Point>)
    ensures BySize(Usable(points))
    ensures forall q :: q in Usable(points) <==> q in points && q.consistent
  {
    if |points| > 0 {
      var k := |points| - 1;
      UsableOrdered(points[..k]);
      PlaceLaws(points[k], Usable(points[..k]));
      assert points == points[..k] + [points[k]];
    }
  }

  lemma {:induction false} UsableContents(points: seq<Point>)
    ensures multiset(Usable(points)) == multiset(Consistent(points))
  {
    if |points| > 0 {
      var k := |points| - 1;
      UsableContents(points[..k]);
      PlaceContents(points[k], Usable(points[..k]));
    }
  }

  lemma {:induction false} UsableStable(points: seq<Point>, t: nat)
    ensures OfSize(t, Usable(points)) == OfSize(t, Consistent(points))
  {
    hide BySize, OfSize, Place;
    if |points| > 0 {
      var k := |points| - 1;
      UsableStable(points[..k], t);
      if points[k].consistent {
        UsableOrdered(points[..k]);
        PlaceStable(t, points[k], Usable(points[..k]));
        OfSizeConcat(t, Consistent(points[..k]), [points[k]]);
        OneOfSize(t, points[k]);
      } else {
        assert Consistent(points) == Consistent(points[..k]);
      }
    }
  }

  /** The usable points are the consistent ones, each as often, in order of size, equal sizes in input order. */
  lemma UsableLaws(points: seq<Point>, t: nat)
    ensures BySize(Usable(points)) && multiset(Usable(points)) == multiset(Consistent(points))
    ensures OfSize(t, Usable(points)) == OfSize(t, Consistent(points))
  {
    hide *;
    UsableOrdered(points);
    UsableContents(points);
    UsableStable(points, t);
  }

  lemma OneOfSize(t: nat, p: Point)
    ensures OfSize(t, [p]) == if p.terms == t then [p] else []
  {
    assert [p][1..] == [];
  }

  /** The medians at `i` and `i + 1` lie strictly on different sides of 1. */
  predicate Bracket(usable: seq<Point>, i: nat)
    requires i + 1 < |usable|
  {
    Times(usable[i].median - 1.0, usable[i + 1].median - 1.0) < 0.0
  }

  function Times(a: real, b: real): real {
    a * b
  }

  lemma BracketSides(a: real, b: real)
    ensures Times(a, b) < 0.0 <==> (a < 0.0 && b > 0.0) || (a > 0.0 && b < 0.0)
  {
  }

  /** For points on their verdicts' sides, a bracket is exactly a change of verdict. */
  lemma BracketIsChange(usable: seq<Point>, i: nat)
    requires i + 1 < |usable| && OnItsSide(usable[i]) && OnItsSide(usable[i + 1])
    requires usable[i].consistent && usable[i + 1].consistent
    ensures Bracket(usable, i) <==> usable[i].verdict != usable[i + 1].verdict
  {
    hide Times;
    BracketSides(usable[i].median - 1.0, usable[i + 1].median - 1.0);
  }

  /** With no bracket all verdicts agree. */
  lemma {:induction false} NoBracketAgrees(usable: seq<Point>, k: nat)
    requires k < |usable| && forall i :: 0 <= i < |usable| ==> OnItsSide(usable[i]) && usable[i].consistent
    requires forall i :: 0 <= i < k ==> !Bracket(usable, i)
    ensures usable[k].verdict == usable[0].verdict
  {
    hide Bracket, OnItsSide;
    if k > 0 {
      NoBracketAgrees(usable, k - 1);
      BracketIsChange(usable, k - 1);
    }
  }

  ghost predicate NoBracket(usable: seq<Point>) {
    forall i :: 0 <= i < |usable| - 1 ==> !Bracket(usable, i)
  }

  /** All consistent points have one verdict. */
  ghost predicate OneDirection(points: seq<Point>) {
    forall p, q :: p in points && q in points && p.consistent && q.consistent ==> p.verdict == q.verdict
  }

  lemma UsableSides(points: seq<Point>)
    requires forall i :: 0 <= i < |points| ==> OnItsSide(points[i])
    ensures
      var usable := Usable(points);
      forall i :: 0 <= i < |usable| ==> OnItsSide(usable[i]) && usable[i].consistent && usable[i] in points
  {
    hide OnItsSide, Usable;
    var usable := Usable(points);
    UsableOrdered(points);
    forall i | 0 <= i < |usable| ensures OnItsSide(usable[i]) && usable[i].consistent && usable[i] in points {
      assert usable[i] in usable;
    }
  }

  lemma NoBracketOneDirection(points: seq<Point>)
    requires (forall i :: 0 <= i < |points| ==> OnItsSide(points[i])) && NoBracket(Usable(points))
    ensures OneDirection(points)
  {
    hide Bracket, OnItsSide, Usable;
    var usable := Usable(points);
    UsableOrdered(points);
    UsableSides(points);
    forall p, q | p in points && q in points && p.consistent && q.consistent ensures p.verdict == q.verdict {
      assert p in usable && q in usable;
      var i :| 0 <= i < |usable| && usable[i] == p;
      var j :| 0 <= j < |usable| && usable[j] == q;
      NoBracketAgrees(usable, i);
      NoBracketAgrees(usable, j);
    }
  }

  lemma OneDirectionNoBracket(points: seq<Point>)
    requires (forall i :: 0 <= i < |points| ==> OnItsSide(points[i])) && OneDirection(points)
    ensures NoBracket(Usable(points))
  {
    hide Bracket, OnItsSide, Usable;
    var usable := Usable(points);
    UsableOrdered(points);
    forall i | 0 <= i < |usable| - 1 ensures !Bracket(usable, i) {
      var p, q := usable[i], usable[i + 1];
      assert p in usable && q in usable;
      BracketIsChange(usable, i);
    }
  }

  /** Over a whole sweep: there is no bracket exactly when all consistent verdicts agree. */
  lemma DirectionChange(points: seq<Point>)
    requires forall i :: 0 <= i < |points| ==> OnItsSide(points[i])
    ensures NoBracket(Usable(points)) <==> OneDirection(points)
  {
    hide NoBracket, OneDirection, OnItsSide, Usable;
    if NoBracket(Usable(points)) {
      NoBracketOneDirection(points);
    }
    if OneDirection(points) {
      OneDirectionNoBracket(points);
    }
  }

  // ---- Interpolation ----

  /** `log10` and its inverse, as far as the study relies on them. */
  ghost predicate Logarithm(log: real -> real, pow: real -> real) {
    && log(1.0) == 0.0
    && (forall a: real, b: real :: 0.0 < a < b ==> log(a) < log(b))
    && (forall x: real, y: real :: x < y ==> pow(x) < pow(y))
    && (forall a: real :: 0.0 < a ==> pow(log(a)) == a)
    && (forall x: real :: pow(x) > 0.0 && log(pow(x)) == x)
  }

  /** The zero of the line through `(x0, y0)` and `(x1, y1)`. */
  function ZeroOf(x0: real, x1: real, y0: real, y1: real): real
    requires y1 != y0
  {
    x0 + (0.0 - y0) * (x1 - x0) / (y1 - y0)
  }

  /** It is on the line: the ordinate there is zero. */
  lemma ZeroOnLine(x0: real, x1: real, y0: real, y1: real)
    requires y1 != y0
    ensures OnLine(ZeroOf(x0, x1, y0, y1), x0, x1, y0, y1)
  {
    var q := (0.0 - y0) * (x1 - x0) / (y1 - y0);
    assert q * (y1 - y0) == (0.0 - y0) * (x1 - x0);
  }

  /** The line through `(x0, y0)` and `(x1, y1)` meets the axis at `x`. */
  predicate OnLine(x: real, x0: real, x1: real, y0: real, y1: real) {
    (x - x0) * (y1 - y0) == -y0 * (x1 - x0)
  }

  lemma QuotientBound(num: real, d: real, dx: real)
    requires d > 0.0 && 0.0 <= num <= d * dx
    ensures 0.0 <= num / d <= dx
  {
    var q := num / d;
    assert q * d == num;
    QuotientOrder(q, dx, d);
    QuotientOrder(0.0, q, d);
  }

  lemma QuotientOrder(a: real, b: real, d: real)
    requires d > 0.0 && a * d <= b * d
    ensures a <= b
  {
  }

  lemma NegatedQuotient(num: real, d: real)
    requires d != 0.0
    ensures num / d == (-num) / (-d)
  {
    var q := num / d;
    assert q * d == num;
    assert q * (-d) == -num;
  }

  lemma Rising(s: real, d: real, dx: real)
    requires 0.0 <= s <= d && d > 0.0 && dx >= 0.0
    ensures 0.0 <= s * dx / d <= dx
  {
    ShareBound(s, d, dx);
    QuotientBound(s * dx, d, dx);
  }

  lemma Falling(s: real, d: real, dx: real)
    requires d <= s <= 0.0 && d < 0.0 && dx >= 0.0
    ensures 0.0 <= s * dx / d <= dx
  {
    Rising(-s, -d, dx);
    NegatedQuotient(s * dx, d);
    NegatedProduct(s, dx);
  }

  lemma NegatedProduct(s: real, dx: real)
    ensures (-s) * dx == -(s * dx)
  {
  }

  /** The zero lies between the ends when the ordinates have opposite signs. */
  lemma ZeroBetween(x0: real, x1: real, y0: real, y1: real)
    requires x0 <= x1 && ((y0 < 0.0 && y1 > 0.0) || (y0 > 0.0 && y1 < 0.0))
    ensures x0 <= ZeroOf(x0, x1, y0, y1) <= x1
  {
    if y0 < 0.0 {
      Rising(0.0 - y0, y1 - y0, x1 - x0);
    } else {
      Falling(0.0 - y0, y1 - y0, x1 - x0);
    }
  }

  lemma ShareBound(s: real, d: real, dx: real)
    requires 0.0 <= s <= d && dx >= 0.0
    ensures 0.0 <= s * dx <= d * dx
  {
  }

  datatype Note = TooFew(usable: nat) | NoChange(faster: Verdict) | Resolved

  datatype Study = Study(crossover: Option<real>, lower: Option<Point>, upper: Option<Point>, zone: Option<Zone>, inside: bool, note: Note)

  datatype Located = Found(study: Study) | DomainError

  /** Whether both ends of a bracket have logarithms. */
  predicate InDomain(lo: Point, hi: Point) {
    lo.terms > 0 && hi.terms > 0 && lo.median > 0.0 && hi.median > 0.0
  }

  /**
   `interpolate_crossover`: the first adjacent pair of consistent points on different sides of 1, and the zero
   of the line through their logarithms.  A size or ratio that is not positive has no logarithm.
   */
  method InterpolateCrossover(points: seq<Point>, log: real -> real, pow: real -> real) returns (r: Located)
    requires Logarithm(log, pow)
    ensures r.Found? ==> ZoneOf(points, r.study.zone)
    ensures |Usable(points)| < 2 ==>
              r.Found? && r.study == Study(None, None, None, r.study.zone, false, TooFew(|Usable(points)|))
    ensures |Usable(points)| >= 2 && NoBracket(Usable(points)) ==>
              && r.Found?
              && r.study == Study(None, None, None, r.study.zone, false, NoChange(if Usable(points)[0].median > 1.0 then Paulistrings else Julia))
    ensures |Usable(points)| >= 2 && !NoBracket(Usable(points)) ==>
              exists k :: 0 <= k < |Usable(points)| - 1 && FirstBracket(Usable(points), k)
    ensures forall k :: 0 <= k < |Usable(points)| - 1 && FirstBracket(Usable(points), k) ==> Answers(Usable(points), k, log, pow, r)
  {
    hide Usable, Bracket, ZoneOf, Crossing, Answers, OnLine, ZeroOf, Logarithm;
    var usable := Usable(points);
    var zone := IndistinguishableZone(points);
    if |usable| < 2 {
      return Found(Study(None, None, None, zone, false, TooFew(|usable|)));
    }
    var i := 0;
    while i + 1 < |usable| && !Bracket(usable, i)
      invariant 0 <= i < |usable|
      invariant NoBracketBefore(usable, i)
      decreases |usable| - i
    {
      i := i + 1;
    }
    if i + 1 == |usable| {
      return Found(Study(None, None, None, zone, false, NoChange(if usable[0].median > 1.0 then Paulistrings else Julia)));
    }
    assert FirstBracket(usable, i);
    assert forall k :: 0 <= k < |usable| - 1 && FirstBracket(usable, k) ==> k == i;
    var lo, hi := usable[i], usable[i + 1];
    if !InDomain(lo, hi) {
      AnswersIs(usable, i, log, pow, DomainError);
      return DomainError;
    }
    LogSides(log, pow, usable, i);
    var x := ZeroOf(log(lo.terms as real), log(hi.terms as real), log(lo.median), log(hi.median));
    var crossover := pow(x);
    var inside := zone.Some? && zone.value.lo as real <= crossover <= zone.value.hi as real;
    CrossingBetween(points, log, pow, i);
    ZeroOnLine(log(lo.terms as real), log(hi.terms as real), log(lo.median), log(hi.median));
    PowBack(log, pow, x);
    var study := Study(Some(crossover), Some(lo), Some(hi), zone, inside, Resolved);
    CrossingIs(usable, i, zone, log, pow, study);
    AnswersIs(usable, i, log, pow, Found(study));
    return Found(study);
  }

  /** What a first bracket at `k` leads to: the domain error, or the crossing of its two points. */
  ghost predicate Answers(usable: seq<Point>, k: nat, log: real -> real, pow: real -> real, r: Located)
    requires k + 1 < |usable|
  {
    && (r == DomainError <==>
          usable[k].terms == 0 || usable[k + 1].terms == 0 || usable[k].median <= 0.0 || usable[k + 1].median <= 0.0)
    && (r.Found? ==> Crossing(usable, k, r.study.zone, log, pow, r.study))
  }

  lemma AnswersIs(usable: seq<Point>, k: nat, log: real -> real, pow: real -> real, r: Located)
    requires k + 1 < |usable| && (r == DomainError <==> !InDomain(usable[k], usable[k + 1]))
    requires r.Found? ==> Crossing(usable, k, r.study.zone, log, pow, r.study)
    ensures Answers(usable, k, log, pow, r)
  {
    hide Crossing;
  }

  lemma CrossingIs(usable: seq<Point>, k: nat, zone: Option<Zone>, log: real -> real, pow: real -> real, s: Study)
    requires k + 1 < |usable| && s.crossover.Some?
    requires
      var lo, hi, c := usable[k], usable[k + 1], s.crossover.value;
      && c > 0.0 && OnLine(log(c), log(lo.terms as real), log(hi.terms as real), log(lo.median), log(hi.median))
      && lo.terms as real <= c <= hi.terms as real
      && s == Study(Some(c), Some(lo), Some(hi), zone, zone.Some? && zone.value.lo as real <= c <= zone.value.hi as real, Resolved)
    ensures Crossing(usable, k, zone, log, pow, s)
  {
  }

  /** `k` and `k + 1` are the first adjacent pair on different sides. */
  ghost predicate FirstBracket(usable: seq<Point>, k: nat)
    requires k + 1 < |usable|
  {
    Bracket(usable, k) && NoBracketBefore(usable, k)
  }

  ghost predicate NoBracketBefore(usable: seq<Point>, k: nat)
    requires k < |usable|
  {
    forall i :: 0 <= i < k ==> !Bracket(usable, i)
  }

  /**
   The interpolated size `c` of the bracket at `k`: in logarithms, the line through its two points meets ratio 1
   at `c`; `c` lies between the two sizes, and the flag says whether it falls in the zone.
   */
  ghost predicate Crossing(usable: seq<Point>, k: nat, zone: Option<Zone>, log: real -> real, pow: real -> real, s: Study)
    requires k + 1 < |usable|
  {
    && s.crossover.Some?
    && var lo, hi, c := usable[k], usable[k + 1], s.crossover.value;
    && var x0, x1, y0, y1 := log(lo.terms as real), log(hi.terms as real), log(lo.median), log(hi.median);
    && c > 0.0 && (log(c) - x0) * (y1 - y0) == -y0 * (x1 - x0)
    && lo.terms as real <= c <= hi.terms as real
    && s == Study(Some(c), Some(lo), Some(hi), zone, zone.Some? && zone.value.lo as real <= c <= zone.value.hi as real, Resolved)
  }

  lemma PowBack(log: real -> real, pow: real -> real, x: real)
    requires Logarithm(log, pow)
    ensures pow(x) > 0.0 && log(pow(x)) == x
  {
  }

  /** Only one size satisfies that equation. */
  lemma CrossingUnique(log: real -> real, pow: real -> real, c: real, d: real, x0: real, x1: real, y0: real, y1: real)
    requires Logarithm(log, pow) && c > 0.0 && d > 0.0 && y0 != y1
    requires (log(c) - x0) * (y1 - y0) == -y0 * (x1 - x0) && (log(d) - x0) * (y1 - y0) == -y0 * (x1 - x0)
    ensures c == d
  {
    SameFactor(log(c), log(d), x0, y1 - y0, -y0 * (x1 - x0));
    assert pow(log(c)) == c && pow(log(d)) == d;
  }

  lemma SameFactor(a: real, b: real, x: real, d: real, e: real)
    requires d != 0.0 && (a - x) * d == e && (b - x) * d == e
    ensures a == b
  {
    assert (a - b) * d == 0.0;
  }

  /** Ratios on different sides of 1 have logarithms of different signs. */
  lemma LogSides(log: real -> real, pow: real -> real, usable: seq<Point>, k: nat)
    requires Logarithm(log, pow) && k + 1 < |usable| && Bracket(usable, k)
    requires usable[k].median > 0.0 && usable[k + 1].median > 0.0
    ensures
      var y0, y1 := log(usable[k].median), log(usable[k + 1].median);
      (y0 < 0.0 && y1 > 0.0) || (y0 > 0.0 && y1 < 0.0)
  {
    hide Times;
    BracketSides(usable[k].median - 1.0, usable[k + 1].median - 1.0);
  }

  lemma Monotone(log: real -> real, pow: real -> real, a: nat, b: nat, x: real)
    requires Logarithm(log, pow) && 0 < a && 0 < b && log(a as real) <= x <= log(b as real)
    ensures a as real <= pow(x) <= b as real
  {
  }

  lemma SizesOrdered(log: real -> real, pow: real -> real, a: nat, b: nat)
    requires Logarithm(log, pow) && 0 < a <= b
    ensures log(a as real) <= log(b as real)
  {
  }

  /** Any reported crossover lies between its two bracketing sizes. */
  lemma CrossingBetween(points: seq<Point>, log: real -> real, pow: real -> real, k: nat)
    requires Logarithm(log, pow) && k + 1 < |Usable(points)| && Bracket(Usable(points), k)
    requires
      var lo, hi := Usable(points)[k], Usable(points)[k + 1];
      lo.terms > 0 && hi.terms > 0 && lo.median > 0.0 && hi.median > 0.0
    ensures
      var lo, hi := Usable(points)[k], Usable(points)[k + 1];
      var y0, y1 := log(lo.median), log(hi.median);
      && y0 != y1
      && lo.terms as real <= pow(ZeroOf(log(lo.terms as real), log(hi.terms as real), y0, y1)) <= hi.terms as real
  {
    hide Usable, Bracket, ZeroOf;
    var usable := Usable(points);
    UsableOrdered(points);
    var lo, hi := usable[k], usable[k + 1];
    LogSides(log, pow, usable, k);
    SizesOrdered(log, pow, lo.terms, hi.terms);
    var x0, x1 := log(lo.terms as real), log(hi.terms as real);
    ZeroBetween(x0, x1, log(lo.median), log(hi.median));
    Monotone(log, pow, lo.terms, hi.terms, ZeroOf(x0, x1, log(lo.median), log(hi.median)));
  }
}
