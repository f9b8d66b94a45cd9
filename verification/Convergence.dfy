/**
 The self-convergence loop of the angle sweep: tighten the cutoff until the value settles, with a plateau
 test that distrusts flat values and a budget guard that projects the next point.
 */
module Convergence {

  datatype Option<T> = None | Some(value: T)

  /** What one propagation at one cutoff measures. */
  datatype Run = Run(value: real, terms: nat, seconds: real)

  datatype Budget = Budget(maxTerms: Option<int>, maxSeconds: Option<real>)

  datatype Stop = OverTerms | OverSeconds | ProjectedTerms | ProjectedSeconds

  const MIN_PROJECTED_GROWTH := 3.0

  /** Cutoffs below this are refused. */
  const MIN_SAFE_COEFF := 0.000000000001

  function Abs(x: real): real {
    if x < 0.0 then -x else x
  }

  function Max(a: real, b: real): real {
    if a < b then b else a
  }

  /** Successive differences; entry `i` compares points `i` and `i + 1`. */
  function Delta(runs: seq<Run>, i: nat): real
    requires i + 1 < |runs|
  {
    Abs(runs[i + 1].value - runs[i].value)
  }

  /** Sum of the seconds of the first `k` points. */
  function Spent(runs: seq<Run>, k: nat): real
    requires k <= |runs|
  {
    if k == 0 then 0.0 else Spent(runs, k - 1) + runs[k - 1].seconds
  }

  // ---- The two tests, after `k` points ----

  /** `_plateau_is_real`. */
  predicate Plateau(runs: seq<Run>, k: nat, tol: real)
    requires k <= |runs|
  {
    && k >= 3
    && runs[k - 1].terms != 0
    && Delta(runs, k - 2) < tol && Delta(runs, k - 3) < tol
    && (runs[k - 1].terms == runs[k - 2].terms || (Delta(runs, k - 2) > 0.0 && Delta(runs, k - 3) > 0.0))
  }

  /** Observed growth between the last two points, with a floor. */
  function Growth(runs: seq<Run>, k: nat): (g: real)
    requires 2 <= k <= |runs|
    ensures g >= MIN_PROJECTED_GROWTH
  {
    var previous := if runs[k - 2].terms > 1 then runs[k - 2].terms else 1;
    Max(MIN_PROJECTED_GROWTH, runs[k - 1].terms as real / previous as real)
  }

  /** `_budget_stop`: the first guard that fires, if any. */
  function BudgetStop(runs: seq<Run>, k: nat, b: Budget): Option<Stop>
    requires k <= |runs|
  {
    if k == 0 then None
    else if b.maxTerms.Some? && runs[k - 1].terms > b.maxTerms.value then Some(OverTerms)
    else if b.maxSeconds.Some? && Spent(runs, k) > b.maxSeconds.value then Some(OverSeconds)
    else if k < 2 then None
    else if b.maxTerms.Some? && runs[k - 1].terms as real * Growth(runs, k) > b.maxTerms.value as real then Some(ProjectedTerms)
    else if b.maxSeconds.Some? && Spent(runs, k) + runs[k - 1].seconds * Growth(runs, k) > b.maxSeconds.value then Some(ProjectedSeconds)
    else None
  }

  // ---- The loop ----

  datatype Point = Point(eps: real, run: Run, delta: Option<real>)

  datatype Reference = Reference(
    value: real, uncertainty: Option<real>, seconds: real, converged: bool, stoppedEarly: Option<Stop>, points: seq<Point>)

  datatype Outcome = Ok(value: Reference) | GridTooFine | GridEmpty

  /** The point recorded for entry `i`. */
  function PointAt(grid: seq<real>, runs: seq<Run>, i: nat): Point
    requires i < |grid| == |runs|
  {
    Point(grid[i], runs[i], if i == 0 then None else Some(Delta(runs, i - 1)))
  }

  /** `max(deltas[-2:])`. */
  function Uncertainty(runs: seq<Run>, k: nat): Option<real>
    requires k <= |runs|
  {
    if k < 2 then None
    else if k == 2 then Some(Delta(runs, 0))
    else Some(Max(Delta(runs, k - 3), Delta(runs, k - 2)))
  }

  /** The loop went on after `j` points. */
  predicate Goes(runs: seq<Run>, j: nat, tol: real, b: Budget)
    requires j <= |runs|
  {
    !Plateau(runs, j, tol) && BudgetStop(runs, j, b) == None
  }

  /** A run of the loop that took `k` points: it went on after every earlier point, and had a reason to stop. */
  ghost predicate RunOf(grid: seq<real>, runs: seq<Run>, tol: real, b: Budget, r: Reference)
    requires |grid| == |runs|
  {
    var k := |r.points|;
    && 1 <= k <= |runs|
    && (forall j :: 1 <= j < k ==> Goes(runs, j, tol, b))
    && (k < |runs| ==> !Goes(runs, k, tol, b))
    && (forall i :: 0 <= i < k ==> r.points[i] == PointAt(grid, runs, i))
    && r.converged == Plateau(runs, k, tol)
    && r.stoppedEarly == (if r.converged then None else BudgetStop(runs, k, b))
    && r.value == runs[k - 1].value && r.seconds == Spent(runs, k) && r.uncertainty == Uncertainty(runs, k)
  }

  predicate TooFine(grid: seq<real>) {
    exists i :: 0 <= i < |grid| && grid[i] < MIN_SAFE_COEFF
  }

  lemma NoneTooFine(grid: seq<real>)
    ensures TooFine(grid) ==> |grid| > 0
  {
  }

  lemma GoesMeans(runs: seq<Run>, j: nat, tol: real, b: Budget)
    requires j <= |runs|
    ensures Goes(runs, j, tol, b) <==> !Plateau(runs, j, tol) && BudgetStop(runs, j, b) == None
  {
  }

  lemma Finish(grid: seq<real>, runs: seq<Run>, tol: real, b: Budget, k: nat, l: Lists, r: Reference)
    requires 1 <= k <= |grid| == |runs| && Recorded(grid, runs, k, l) && r.points == l.points
    requires forall j :: 1 <= j < k ==> Goes(runs, j, tol, b)
    requires k < |runs| ==> r.converged || r.stoppedEarly.Some?
    requires r.converged == Plateau(runs, k, tol) && r.stoppedEarly == (if r.converged then None else BudgetStop(runs, k, b))
    requires r.value == runs[k - 1].value && r.seconds == Spent(runs, k) && r.uncertainty == Uncertainty(runs, k)
    ensures RunOf(grid, runs, tol, b, r)
  {
    hide Plateau, BudgetStop, Spent, Uncertainty;
  }

  /** `self_converged_reference`, with the measurements of each grid point as inputs. */
  method SelfConvergedReference(grid: seq<real>, runs: seq<Run>, tol: real, b: Budget) returns (r: Outcome)
    requires |grid| == |runs|
    ensures r.GridTooFine? <==> exists i :: 0 <= i < |grid| && grid[i] < MIN_SAFE_COEFF
    ensures r.GridEmpty? <==> |grid| == 0
    ensures r.Ok? ==> RunOf(grid, runs, tol, b, r.value)
  {
    hide Plateau, BudgetStop, PlateauIsReal, BudgetGuard, Spent, Abs, LargerOfLastTwo, Uncertainty, Goes, RunOf, Recorded;
    NoneTooFine(grid);
    if TooFine(grid) {
      return GridTooFine;
    }
    var lists := Lists([], [], []);
    NothingRecorded(grid, runs);
    var converged := false;
    var stoppedEarly: Option<Stop> := None;
    var totalSeconds := 0.0;
    var k := 0;
    SpentStep(runs, 0);
    while k < |grid| && !converged && stoppedEarly.None?
      invariant 0 <= k <= |grid| && Recorded(grid, runs, k, lists)
      invariant totalSeconds == Spent(runs, k)
      invariant k == 0 ==> !converged && stoppedEarly == None
      invariant k >= 1 ==> converged == Plateau(runs, k, tol)
      invariant k >= 1 ==> stoppedEarly == if converged then None else BudgetStop(runs, k, b)
      invariant forall j :: 1 <= j < k ==> Goes(runs, j, tol, b)
    {
      GoesMeans(runs, k, tol, b);
      SpentStep(runs, k);
      totalSeconds := totalSeconds + runs[k].seconds;
      lists := Record(grid, runs, k, lists);
      k := k + 1;
      TestsAgree(grid, runs, k, lists, totalSeconds, tol, b);
      converged := PlateauIsReal(lists.points, lists.deltas, tol);
      if !converged {
        stoppedEarly := BudgetGuard(lists.points, totalSeconds, b);
      }
    }
    RecordedSize(grid, runs, k, lists);
    if |lists.values| == 0 {
      return GridEmpty;
    }
    UncertaintyAgrees(grid, runs, k, lists);
    var reference := Reference(lists.values[|lists.values| - 1], LargerOfLastTwo(lists.deltas), totalSeconds, converged,
                               stoppedEarly, lists.points);
    Finish(grid, runs, tol, b, k, lists, reference);
    return Ok(reference);
  }

  /** The lists the loop appends to. */
  datatype Lists = Lists(points: seq<Point>, values: seq<real>, deltas: seq<real>)

  ghost predicate Recorded(grid: seq<real>, runs: seq<Run>, k: nat, l: Lists)
    requires k <= |grid| == |runs|
  {
    && |l.points| == |l.values| == k && |l.deltas| == (if k == 0 then 0 else k - 1)
    && (forall i :: 0 <= i < k ==> l.values[i] == runs[i].value && l.points[i] == PointAt(grid, runs, i))
    && (forall i :: 0 <= i < |l.deltas| ==> l.deltas[i] == Delta(runs, i))
  }

  lemma NothingRecorded(grid: seq<real>, runs: seq<Run>)
    requires |grid| == |runs|
    ensures Recorded(grid, runs, 0, Lists([], [], []))
  {
  }

  lemma RecordedSize(grid: seq<real>, runs: seq<Run>, k: nat, l: Lists)
    requires k <= |grid| == |runs| && Recorded(grid, runs, k, l)
    ensures |l.points| == |l.values| == k && (k > 0 ==> l.values[k - 1] == runs[k - 1].value)
  {
  }

  /** One more point. */
  method Record(grid: seq<real>, runs: seq<Run>, k: nat, l: Lists) returns (r: Lists)
    requires k < |grid| == |runs| && Recorded(grid, runs, k, l)
    ensures Recorded(grid, runs, k + 1, r)
  {
    hide Abs;
    var values := l.values + [runs[k].value];
    var deltas := l.deltas;
    if |values| > 1 {
      deltas := deltas + [Abs(values[|values| - 1] - values[|values| - 2])];
    }
    var point := Point(grid[k], runs[k], if |deltas| > 0 then Some(deltas[|deltas| - 1]) else None);
    r := Lists(l.points + [point], values, deltas);
    assert point == PointAt(grid, runs, k);
    forall i | 0 <= i < k + 1 ensures r.values[i] == runs[i].value && r.points[i] == PointAt(grid, runs, i) {
      if i < k {
        assert r.points[i] == l.points[i] && r.values[i] == l.values[i];
      }
    }
  }

  /** `max(deltas[-2:])` on the recorded list. */
  function LargerOfLastTwo(deltas: seq<real>): Option<real> {
    if |deltas| == 0 then None
    else if |deltas| == 1 then Some(deltas[0])
    else Some(Max(deltas[|deltas| - 2], deltas[|deltas| - 1]))
  }

  lemma UncertaintyAgrees(grid: seq<real>, runs: seq<Run>, k: nat, l: Lists)
    requires 1 <= k <= |grid| == |runs| && Recorded(grid, runs, k, l)
    ensures LargerOfLastTwo(l.deltas) == Uncertainty(runs, k)
  {
  }

  /** `_plateau_is_real` on the recorded lists. */
  predicate PlateauIsReal(points: seq<Point>, deltas: seq<real>, tol: real) {
    if |deltas| < 2 || |points| < 3 then false
    else if points[|points| - 1].run.terms == 0 then false
    else if !(deltas[|deltas| - 1] < tol && deltas[|deltas| - 2] < tol) then false
    else
      var saturated := points[|points| - 1].run.terms == points[|points| - 2].run.terms;
      var movingSlowly := deltas[|deltas| - 1] > 0.0 && deltas[|deltas| - 2] > 0.0;
      saturated || movingSlowly
  }

  /** `_budget_stop` on the recorded lists. */
  function BudgetGuard(points: seq<Point>, totalSeconds: real, b: Budget): Option<Stop> {
    if |points| == 0 then None
    else
      var last := points[|points| - 1].run;
      if b.maxTerms.Some? && last.terms > b.maxTerms.value then Some(OverTerms)
      else if b.maxSeconds.Some? && totalSeconds > b.maxSeconds.value then Some(OverSeconds)
      else if |points| < 2 then None
      else
        var before := points[|points| - 2].run.terms;
        var growth := Max(MIN_PROJECTED_GROWTH, last.terms as real / (if before > 1 then before else 1) as real);
        if b.maxTerms.Some? && last.terms as real * growth > b.maxTerms.value as real then Some(ProjectedTerms)
        else if b.maxSeconds.Some? && totalSeconds + last.seconds * growth > b.maxSeconds.value then Some(ProjectedSeconds)
        else None
  }

  lemma SpentStep(runs: seq<Run>, k: nat)
    requires k <= |runs|
    ensures Spent(runs, 0) == 0.0
    ensures k < |runs| ==> Spent(runs, k + 1) == Spent(runs, k) + runs[k].seconds
  {
  }

  lemma RecordedAt(grid: seq<real>, runs: seq<Run>, k: nat, l: Lists, i: nat)
    requires i < k <= |grid| == |runs| && Recorded(grid, runs, k, l)
    ensures |l.points| == k && |l.deltas| == k - 1 && l.points[i].run == runs[i]
    ensures i < k - 1 ==> l.deltas[i] == Delta(runs, i)
  {
    hide Delta;
  }

  /** The tests on the recorded lists are the tests on the first `k` measurements. */
  lemma TestsAgree(grid: seq<real>, runs: seq<Run>, k: nat, l: Lists, spent: real, tol: real, b: Budget)
    requires 1 <= k <= |grid| == |runs| && Recorded(grid, runs, k, l) && spent == Spent(runs, k)
    ensures PlateauIsReal(l.points, l.deltas, tol) == Plateau(runs, k, tol)
    ensures BudgetGuard(l.points, spent, b) == BudgetStop(runs, k, b)
  {
    hide Spent, Delta, Recorded, PlateauIsReal, Plateau;
    PlateauAgrees(grid, runs, k, l, tol);
    RecordedAt(grid, runs, k, l, k - 1);
    if k >= 2 {
      RecordedAt(grid, runs, k, l, k - 2);
    }
  }

  lemma PlateauAgrees(grid: seq<real>, runs: seq<Run>, k: nat, l: Lists, tol: real)
    requires 1 <= k <= |grid| == |runs| && Recorded(grid, runs, k, l)
    ensures PlateauIsReal(l.points, l.deltas, tol) == Plateau(runs, k, tol)
  {
    hide Delta, Recorded;
    RecordedAt(grid, runs, k, l, k - 1);
    if k >= 3 {
      RecordedAt(grid, runs, k, l, k - 2); RecordedAt(grid, runs, k, l, k - 3);
    }
  }

  // ---- What every run guarantees ----

  /**
   When a run converges, read off its points alone: at least three, a non-empty last sum, the last two moves
   smaller than `tol`, and either equal last term counts or two real moves.  No earlier point of the run had
   that, so the run stops at the first that does.
   */
  lemma ConvergedIff(grid: seq<real>, runs: seq<Run>, tol: real, b: Budget, r: Reference)
    requires |grid| == |runs| && RunOf(grid, runs, tol, b, r)
    ensures
      var p, k := r.points, |r.points|;
      r.converged
      <==> && k >= 3 && p[k - 1].run.terms > 0
           && 0.0 - tol < p[k - 1].run.value - p[k - 2].run.value < tol
           && 0.0 - tol < p[k - 2].run.value - p[k - 3].run.value < tol
           && (|| p[k - 1].run.terms == p[k - 2].run.terms
               || (p[k - 1].run.value != p[k - 2].run.value && p[k - 2].run.value != p[k - 3].run.value))
    ensures
      var p, k := r.points, |r.points|;
      forall i :: 2 <= i < k - 1 ==>
        !(&& p[i].run.terms > 0
          && 0.0 - tol < p[i].run.value - p[i - 1].run.value < tol
          && 0.0 - tol < p[i - 1].run.value - p[i - 2].run.value < tol
          && (|| p[i].run.terms == p[i - 1].run.terms
              || (p[i].run.value != p[i - 1].run.value && p[i - 1].run.value != p[i - 2].run.value)))
  {
    hide *;
    var p, k := r.points, |r.points|;
    RunPoints(grid, runs, tol, b, r);
    PlateauMeans(runs, k, tol);
    forall i | 2 <= i < k - 1
      ensures
        !(&& p[i].run.terms > 0
          && 0.0 - tol < p[i].run.value - p[i - 1].run.value < tol
          && 0.0 - tol < p[i - 1].run.value - p[i - 2].run.value < tol
          && (|| p[i].run.terms == p[i - 1].run.terms
              || (p[i].run.value != p[i - 1].run.value && p[i - 1].run.value != p[i - 2].run.value)))
    {
      var j := i + 1;
      PlateauMeans(runs, j, tol);
    }
  }

  /** What a run reports of each point, and its value, the last point's. */
  lemma PointsMean(grid: seq<real>, runs: seq<Run>, tol: real, b: Budget, r: Reference, i: nat)
    requires |grid| == |runs| && RunOf(grid, runs, tol, b, r) && i < |r.points|
    ensures r.points[i].eps == grid[i] && r.points[i].run == runs[i]
    ensures r.points[i].delta == None <==> i == 0
    ensures i > 0 ==>
              var d := runs[i].value - runs[i - 1].value;
              r.points[i].delta == Some(if d >= 0.0 then d else -d)
    ensures r.value == r.points[|r.points| - 1].run.value
  {
    hide Plateau, BudgetStop, Spent, Uncertainty;
    assert r.points[i] == PointAt(grid, runs, i);
    assert r.points[|r.points| - 1] == PointAt(grid, runs, |r.points| - 1);
  }

  lemma RunPoints(grid: seq<real>, runs: seq<Run>, tol: real, b: Budget, r: Reference)
    requires |grid| == |runs| && RunOf(grid, runs, tol, b, r)
    ensures 1 <= |r.points| <= |runs| && forall i :: 0 <= i < |r.points| ==> r.points[i].run == runs[i]
    ensures r.converged == Plateau(runs, |r.points|, tol) && forall j :: 1 <= j < |r.points| ==> !Plateau(runs, j, tol)
  {
    hide Plateau, BudgetStop, Spent, Uncertainty;
    forall i | 0 <= i < |r.points| ensures r.points[i].run == runs[i] {
      assert r.points[i] == PointAt(grid, runs, i);
    }
    forall j | 1 <= j < |r.points| ensures !Plateau(runs, j, tol) {
      assert Goes(runs, j, tol, b);
    }
  }

  lemma PlateauMeans(runs: seq<Run>, k: nat, tol: real)
    requires k <= |runs|
    ensures
      Plateau(runs, k, tol)
      <==> && k >= 3 && runs[k - 1].terms > 0
           && 0.0 - tol < runs[k - 1].value - runs[k - 2].value < tol
           && 0.0 - tol < runs[k - 2].value - runs[k - 3].value < tol
           && (|| runs[k - 1].terms == runs[k - 2].terms
               || (runs[k - 1].value != runs[k - 2].value && runs[k - 2].value != runs[k - 3].value))
  {
  }

  /** The projected growth is the least factor that is at least 3 and at least the observed ratio. */
  lemma GrowthIsLeast(runs: seq<Run>, k: nat, x: real)
    requires 2 <= k <= |runs|
    ensures
      var previous := if runs[k - 2].terms > 1 then runs[k - 2].terms else 1;
      Growth(runs, k) <= x <==> 3.0 <= x && runs[k - 1].terms as real <= x * previous as real
  {
    var previous := if runs[k - 2].terms > 1 then runs[k - 2].terms else 1;
    RatioAtMost(runs[k - 1].terms as real, previous as real, x);
  }

  lemma RatioAtMost(a: real, d: real, x: real)
    requires d > 0.0
    ensures a / d <= x <==> a <= x * d
  {
    var q := a / d;
    assert q * d == a;
    RatioLaw(q, a, d, x);
  }

  lemma RatioLaw(q: real, a: real, d: real, x: real)
    requires d > 0.0 && q * d == a
    ensures q <= x <==> a <= x * d
  {
    if q <= x {
      Scale(q, x, d);
    } else {
      ScaleStrict(x, q, d);
    }
  }

  lemma Scale(a: real, b: real, d: real)
    requires a <= b && d >= 0.0
    ensures a * d <= b * d
  {
  }

  lemma ScaleStrict(a: real, b: real, d: real)
    requires a < b && d > 0.0
    ensures a * d < b * d
  {
  }

  /** The term projection without its quotient: three times the terms, or their square over the point before, exceeds the budget. */
  lemma TermProjection(runs: seq<Run>, k: nat, m: int)
    requires 2 <= k <= |runs|
    ensures
      var t, previous := runs[k - 1].terms, if runs[k - 2].terms > 1 then runs[k - 2].terms else 1;
      t as real * Growth(runs, k) > m as real <==> 3 * t > m || t * t > m * previous
  {
    var t, previous := runs[k - 1].terms, if runs[k - 2].terms > 1 then runs[k - 2].terms else 1;
    RealProjection(t as real, previous as real, m as real);
    Whole(3, t, m, 1); Whole(t, t, m, previous);
  }

  lemma RealProjection(t: real, previous: real, m: real)
    requires t >= 0.0 && previous > 0.0
    ensures t * Max(3.0, t / previous) > m <==> 3.0 * t > m * 1.0 || t * t > m * previous
  {
    LargestTimes(t, 3.0, t / previous, m);
    TimesRatio(t, t, previous, m);
  }

  lemma Whole(a: nat, b: nat, c: int, d: nat)
    ensures a as real * b as real > c as real * d as real <==> a * b > c * d
  {
    assert a as real * b as real == (a * b) as real;
    assert c as real * d as real == (c * d) as real;
  }

  lemma LargestTimes(s: real, a: real, b: real, m: real)
    requires s >= 0.0
    ensures s * Max(a, b) > m <==> s * a > m || s * b > m
  {
    if a < b {
      Scale(a, b, s);
    } else {
      Scale(b, a, s);
    }
  }

  lemma TimesRatio(s: real, a: real, d: real, m: real)
    requires d > 0.0
    ensures s * (a / d) > m <==> s * a > m * d
  {
    var q := a / d;
    assert q * d == a;
    assert (s * q) * d == s * a;
    if s * q > m {
      ScaleStrict(m, s * q, d);
    } else {
      Scale(s * q, m, d);
    }
  }

  /** The time projection without its quotient. */
  lemma TimeProjection(runs: seq<Run>, k: nat, spent: real, m: real)
    requires 2 <= k <= |runs| && runs[k - 1].seconds >= 0.0
    ensures
      var s, t, previous := runs[k - 1].seconds, runs[k - 1].terms as real, (if runs[k - 2].terms > 1 then runs[k - 2].terms else 1) as real;
      spent + s * Growth(runs, k) > m <==> spent + 3.0 * s > m || s * t > (m - spent) * previous
  {
    var s, t, previous := runs[k - 1].seconds, runs[k - 1].terms as real, (if runs[k - 2].terms > 1 then runs[k - 2].terms else 1) as real;
    LargestTimes(s, 3.0, t / previous, m - spent);
    TimesRatio(s, t, previous, m - spent);
  }

  /** Why a run stopped early, read off its points, its total time and the budget. */
  lemma StoppedIff(grid: seq<real>, runs: seq<Run>, tol: real, b: Budget, r: Reference)
    requires |grid| == |runs| && RunOf(grid, runs, tol, b, r) && !r.converged
    requires forall i :: 0 <= i < |runs| ==> runs[i].seconds >= 0.0
    ensures
      var k := |r.points|;
      var last := r.points[k - 1].run;
      var t, s := last.terms, last.seconds;
      var before := if k >= 2 && r.points[k - 2].run.terms > 1 then r.points[k - 2].run.terms else 1;
      var overTerms := b.maxTerms.Some? && t > b.maxTerms.value;
      var overSeconds := b.maxSeconds.Some? && r.seconds > b.maxSeconds.value;
      var willTerms := k >= 2 && b.maxTerms.Some? && (3 * t > b.maxTerms.value || t * t > b.maxTerms.value * before);
      var willSeconds := k >= 2 && b.maxSeconds.Some?
        && (r.seconds + 3.0 * s > b.maxSeconds.value || s * t as real > (b.maxSeconds.value - r.seconds) * before as real);
      && (r.stoppedEarly == Some(OverTerms) <==> overTerms)
      && (r.stoppedEarly == Some(OverSeconds) <==> !overTerms && overSeconds)
      && (r.stoppedEarly == Some(ProjectedTerms) <==> !overTerms && !overSeconds && willTerms)
      && (r.stoppedEarly == Some(ProjectedSeconds) <==> !overTerms && !overSeconds && !willTerms && willSeconds)
      && (r.stoppedEarly == None ==> |r.points| == |grid|)
  {
    hide Plateau, Uncertainty, Spent, Growth, BudgetStop;
    var p, k := r.points, |r.points|;
    RunPoints(grid, runs, tol, b, r);
    BudgetMeans(runs, k, b);
  }

  lemma BudgetMeans(runs: seq<Run>, k: nat, b: Budget)
    requires 1 <= k <= |runs| && runs[k - 1].seconds >= 0.0
    ensures
      var stop, t, s, spent := BudgetStop(runs, k, b), runs[k - 1].terms, runs[k - 1].seconds, Spent(runs, k);
      var before := if k >= 2 && runs[k - 2].terms > 1 then runs[k - 2].terms else 1;
      var overTerms := b.maxTerms.Some? && t > b.maxTerms.value;
      var overSeconds := b.maxSeconds.Some? && spent > b.maxSeconds.value;
      var willTerms := k >= 2 && b.maxTerms.Some? && (3 * t > b.maxTerms.value || t * t > b.maxTerms.value * before);
      var willSeconds := k >= 2 && b.maxSeconds.Some?
        && (spent + 3.0 * s > b.maxSeconds.value || s * t as real > (b.maxSeconds.value - spent) * before as real);
      stop == if overTerms then Some(OverTerms) else if overSeconds then Some(OverSeconds)
              else if willTerms then Some(ProjectedTerms) else if willSeconds then Some(ProjectedSeconds) else None
  {
    hide Spent, Growth;
    if k >= 2 {
      if b.maxTerms.Some? {
        TermProjection(runs, k, b.maxTerms.value);
      }
      if b.maxSeconds.Some? {
        TimeProjection(runs, k, Spent(runs, k), b.maxSeconds.value);
      }
    }
  }

  /** The reported uncertainty is the larger of the last two moves, the only one after two points, and absent before. */
  lemma UncertaintyIsLarger(grid: seq<real>, runs: seq<Run>, tol: real, b: Budget, r: Reference)
    requires |grid| == |runs| && RunOf(grid, runs, tol, b, r)
    ensures r.uncertainty == None <==> |r.points| == 1
    ensures
      var p, k := r.points, |r.points|;
      k >= 2 ==>
        var d := p[k - 1].run.value - p[k - 2].run.value;
        var e := if k == 2 then d else p[k - 2].run.value - p[k - 3].run.value;
        var u := r.uncertainty.value;
        d <= u && -d <= u && e <= u && -e <= u && (u == d || u == -d || u == e || u == -e)
  {
    hide Plateau, BudgetStop, Spent;
    var p, k := r.points, |r.points|;
    forall i | 0 <= i < k ensures p[i].run == runs[i] {
      assert p[i] == PointAt(grid, runs, i);
    }
  }

  /** Converged means: not stopped early, non-empty, both last differences below `tol`, and flat only when saturated. */
  lemma ConvergedMeans(grid: seq<real>, runs: seq<Run>, tol: real, b: Budget, r: Reference)
    requires |grid| == |runs| && RunOf(grid, runs, tol, b, r) && r.converged
    ensures r.stoppedEarly == None && |r.points| >= 3
    ensures r.points[|r.points| - 1].run.terms > 0
    ensures r.uncertainty.Some? && 0.0 <= r.uncertainty.value < tol
    ensures r.uncertainty.value == 0.0 ==>
              r.points[|r.points| - 1].run.terms == r.points[|r.points| - 2].run.terms
              && r.points[|r.points| - 1].run.value == r.points[|r.points| - 3].run.value
  {
    var k := |r.points|;
    assert r.points[k - 1] == PointAt(grid, runs, k - 1) && r.points[k - 2] == PointAt(grid, runs, k - 2);
    assert r.points[k - 3] == PointAt(grid, runs, k - 3);
  }

  /** A run that stopped early, or ran out of grid, is never reported as converged. */
  lemma StoppedMeans(grid: seq<real>, runs: seq<Run>, tol: real, b: Budget, r: Reference)
    requires |grid| == |runs| && RunOf(grid, runs, tol, b, r) && !r.converged
    ensures r.stoppedEarly == None ==> |r.points| == |grid|
    ensures forall k :: 1 <= k <= |r.points| ==> !Plateau(runs, k, tol)
  {
    var last := |r.points|;
    forall k | 1 <= k <= last ensures !Plateau(runs, k, tol) {
      if k < last {
        assert Goes(runs, k, tol, b);
      }
    }
  }

  lemma ThirdOf(t: nat, g: real, m: int)
    requires g >= 3.0 && t as real * g <= m as real
    ensures 3 * t <= m
  {
    assert t as real * 3.0 <= t as real * g;
  }

  /** With a term budget, every non-final point from the second on has at most a third of it, and the first fits. */
  lemma TermBudget(grid: seq<real>, runs: seq<Run>, tol: real, b: Budget, r: Reference, i: nat)
    requires |grid| == |runs| && RunOf(grid, runs, tol, b, r) && b.maxTerms.Some? && i < |r.points| - 1
    ensures runs[i].terms <= b.maxTerms.value
    ensures i >= 1 ==> 3 * runs[i].terms <= b.maxTerms.value
  {
    assert Goes(runs, i + 1, tol, b);
    if i >= 1 {
      ThirdOf(runs[i].terms, Growth(runs, i + 1), b.maxTerms.value);
    }
  }

  lemma Room(spent: real, s: real, g: real, m: real)
    requires spent + s * g <= m && g >= 3.0 && s >= 0.0
    ensures spent + 3.0 * s <= m
  {
    assert s * (g - 3.0) >= 0.0;
  }

  lemma TimeGuard(runs: seq<Run>, k: nat, b: Budget)
    requires 1 <= k <= |runs| && BudgetStop(runs, k, b) == None && b.maxSeconds.Some? && runs[k - 1].seconds >= 0.0
    ensures Spent(runs, k) <= b.maxSeconds.value
    ensures k >= 2 ==> Spent(runs, k) + 3.0 * runs[k - 1].seconds <= b.maxSeconds.value
  {
    hide Spent, Growth;
    if k >= 2 {
      Room(Spent(runs, k), runs[k - 1].seconds, Growth(runs, k), b.maxSeconds.value);
    }
  }

  /** With a time budget, before every point after the second the spent time left room for three times the last point. */
  lemma TimeBudget(grid: seq<real>, runs: seq<Run>, tol: real, b: Budget, r: Reference, i: nat)
    requires |grid| == |runs| && RunOf(grid, runs, tol, b, r) && b.maxSeconds.Some? && i < |r.points| - 1
    requires forall j :: 0 <= j < |runs| ==> runs[j].seconds >= 0.0
    ensures Spent(runs, i + 1) <= b.maxSeconds.value
    ensures i >= 1 ==> Spent(runs, i + 1) + 3.0 * runs[i].seconds <= b.maxSeconds.value
  {
    hide Spent, BudgetStop, Plateau, Uncertainty;
    assert Goes(runs, i + 1, tol, b);
    TimeGuard(runs, i + 1, b);
  }

  /** The tests see only the points so far: extending the grid never changes a run that stopped inside it. */
  lemma PrefixDecides(grid: seq<real>, runs: seq<Run>, grid': seq<real>, runs': seq<Run>, tol: real, b: Budget, r: Reference, r': Reference)
    requires |grid| == |runs| && |grid'| == |runs'|
    requires RunOf(grid, runs, tol, b, r) && (r.converged || r.stoppedEarly.Some?)
    requires RunOf(grid + grid', runs + runs', tol, b, r')
    ensures r' == r
  {
    hide Plateau, BudgetStop, Uncertainty, Spent;
    var k, k' := |r.points|, |r'.points|;
    var all := runs + runs';
    forall j | 0 <= j <= k ensures Goes(all, j, tol, b) == Goes(runs, j, tol, b) {
      PrefixTests(runs, runs', j, tol, b);
    }
    assert !Goes(runs, k, tol, b);
    assert k' == k;
    PrefixTests(runs, runs', k, tol, b);
    forall i | 0 <= i < k ensures r'.points[i] == r.points[i] {
      assert r'.points[i] == PointAt(grid + grid', all, i) && r.points[i] == PointAt(grid, runs, i);
    }
    assert r'.points == r.points;
  }

  ghost predicate SameSoFar(runs: seq<Run>, runs': seq<Run>, j: nat, tol: real, b: Budget)
    requires j <= |runs|
  {
    && Plateau(runs + runs', j, tol) == Plateau(runs, j, tol)
    && BudgetStop(runs + runs', j, b) == BudgetStop(runs, j, b)
    && Spent(runs + runs', j) == Spent(runs, j)
    && Uncertainty(runs + runs', j) == Uncertainty(runs, j)
  }

  lemma {:induction false} PrefixSpent(runs: seq<Run>, runs': seq<Run>, j: nat)
    requires j <= |runs|
    ensures Spent(runs + runs', j) == Spent(runs, j)
  {
    if j > 0 {
      PrefixSpent(runs, runs', j - 1);
    }
  }

  lemma PrefixTests(runs: seq<Run>, runs': seq<Run>, j: nat, tol: real, b: Budget)
    requires j <= |runs|
    ensures SameSoFar(runs, runs', j, tol, b)
  {
    hide Spent, Growth, Delta;
    PrefixSpent(runs, runs', j);
    if j >= 2 {
      PrefixGrowth(runs, runs', j);
      PrefixDelta(runs, runs', j - 2);
    }
    if j >= 3 {
      PrefixDelta(runs, runs', j - 3);
    }
  }

  lemma PrefixGrowth(runs: seq<Run>, runs': seq<Run>, j: nat)
    requires 2 <= j <= |runs|
    ensures Growth(runs + runs', j) == Growth(runs, j)
  {
  }

  lemma PrefixDelta(runs: seq<Run>, runs': seq<Run>, i: nat)
    requires i + 1 < |runs|
    ensures Delta(runs + runs', i) == Delta(runs, i)
  {
  }

  // ---- Against the documentation ----

  /**
   An unconverged reference reports the larger of its last two differences, which is the last one exactly
   when that is not the smaller of the two.
   */
  lemma UncertaintyIsLast(grid: seq<real>, runs: seq<Run>, tol: real, b: Budget, r: Reference)
    requires |grid| == |runs| && RunOf(grid, runs, tol, b, r) && |r.points| >= 2
    ensures
      var k := |r.points|;
      r.uncertainty == Some(Delta(runs, k - 2)) <==> k == 2 || Delta(runs, k - 3) <= Delta(runs, k - 2)
  {
  }

  /** A sweep whose last difference is the smaller one. */
  lemma UncertaintyIsNotLast() returns (r: Reference)
    ensures
      var grid, runs := [0.1, 0.01, 0.001], [Run(0.0, 1, 1.0), Run(0.5, 2, 1.0), Run(0.6, 3, 1.0)];
      && RunOf(grid, runs, 0.001, Budget(None, None), r)
      && !r.converged && r.uncertainty == Some(0.5) && Delta(runs, 1) < 0.2
  {
    var grid, runs := [0.1, 0.01, 0.001], [Run(0.0, 1, 1.0), Run(0.5, 2, 1.0), Run(0.6, 3, 1.0)];
    var points := [PointAt(grid, runs, 0), PointAt(grid, runs, 1), PointAt(grid, runs, 2)];
    r := Reference(0.6, Uncertainty(runs, 3), Spent(runs, 3), false, None, points);
    assert Delta(runs, 0) == 0.5;
  }
}
