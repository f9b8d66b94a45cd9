/** Open square lattices: row-major indexing, nearest-neighbour bonds and the Manhattan metric. */
module Lattice {
  import opened CausalCone
  import opened PauliSums
  import opened Propagation

  datatype Result<T> = Ok(value: T) | Err

  /** `square_lattice_index`. */
  function Index(rows: nat, cols: nat, r: int, c: int): Result<int> {
    if !(0 <= r < rows) || !(0 <= c < cols) then Err else Ok(At(cols, r, c))
  }

  /** `square_lattice_coords`. */
  function Coords(rows: nat, cols: nat, q: int): Result<(int, int)> {
    if !(0 <= q < rows * cols) then Err
    else Ok((RowOf(cols, q), ColOf(cols, q)))
  }

  function Abs(a: int): nat {
    if a < 0 then -a else a
  }

  function RowOf(cols: nat, q: nat): nat
    requires cols > 0
  {
    q / cols
  }

  function ColOf(cols: nat, q: nat): nat
    requires cols > 0
  {
    q % cols
  }

  function At(cols: nat, r: nat, c: nat): nat {
    r * cols + c
  }

  /** An entry of `square_lattice_distances`. */
  function Manhattan(cols: nat, p: nat, q: nat): nat
    requires cols > 0
  {
    Abs(RowOf(cols, p) - RowOf(cols, q)) + Abs(ColOf(cols, p) - ColOf(cols, q))
  }

  lemma MulLe(a: nat, b: nat, k: nat)
    requires a <= b
    ensures a * k <= b * k
  {
  }

  lemma AtSteps(cols: nat, r: nat, c: nat)
    ensures At(cols, r, c + 1) == At(cols, r, c) + 1
    ensures At(cols, r + 1, c) == At(cols, r, c) + cols
  {
  }

  /** Row-major order. */
  lemma AtOrder(cols: nat, r: nat, c: nat, r': nat, c': nat)
    requires c < cols && r < r'
    ensures At(cols, r, c) < At(cols, r', c')
  {
    MulLe(r + 1, r', cols);
  }

  lemma Decompose(cols: nat, q: nat)
    requires cols > 0
    ensures q == At(cols, RowOf(cols, q), ColOf(cols, q)) && ColOf(cols, q) < cols
  {
  }

  lemma SplitIndex(cols: nat, r: nat, c: nat)
    requires c < cols
    ensures RowOf(cols, At(cols, r, c)) == r && ColOf(cols, At(cols, r, c)) == c
  {
    hide RowOf, ColOf, At;
    var q := At(cols, r, c);
    var d, m := RowOf(cols, q), ColOf(cols, q);
    Decompose(cols, q);
    if d < r {
      AtOrder(cols, d, m, r, c);
    } else if d > r {
      AtOrder(cols, r, c, d, m);
    } else {
      AtCancel(cols, r, c, m);
    }
  }

  lemma AtCancel(cols: nat, r: nat, c: nat, c': nat)
    requires At(cols, r, c) == At(cols, r, c')
    ensures c == c'
  {
  }

  lemma RowBound(rows: nat, cols: nat, q: nat)
    requires cols > 0
    ensures q < rows * cols <==> RowOf(cols, q) < rows
  {
    hide RowOf, ColOf;
    var r := RowOf(cols, q);
    Decompose(cols, q);
    if r < rows {
      MulLe(r + 1, rows, cols);
    } else {
      MulLe(rows, r, cols);
    }
  }

  /** Index and coordinates are mutual inverses, and each rejects exactly what is off the lattice. */
  lemma IndexCoordsInverse(rows: nat, cols: nat, r: int, c: int, q: int)
    ensures Index(rows, cols, r, c).Ok? <==> 0 <= r < rows && 0 <= c < cols
    ensures Index(rows, cols, r, c).Ok? ==> Coords(rows, cols, Index(rows, cols, r, c).value) == Ok((r, c))
    ensures Coords(rows, cols, q).Ok? <==> 0 <= q < rows * cols
    ensures Coords(rows, cols, q).Ok? ==>
              Index(rows, cols, Coords(rows, cols, q).value.0, Coords(rows, cols, q).value.1) == Ok(q)
  {
    hide RowOf, ColOf, At;
    if 0 <= r < rows && 0 <= c < cols {
      SplitIndex(cols, r, c);
      RowBound(rows, cols, At(cols, r, c));
    }
    if 0 <= q < rows * cols {
      Decompose(cols, q);
      RowBound(rows, cols, q);
    }
  }

  /** Row-major: the first site is 0, one column on adds 1, one row on adds the number of columns. */
  lemma IndexRowMajor(rows: nat, cols: nat, r: nat, c: nat)
    requires r < rows && c < cols
    ensures Index(rows, cols, 0, 0) == Ok(0)
    ensures c + 1 < cols ==> Index(rows, cols, r, c + 1) == Ok(Index(rows, cols, r, c).value + 1)
    ensures r + 1 < rows ==> Index(rows, cols, r + 1, c) == Ok(Index(rows, cols, r, c).value + cols)
  {
    hide At;
    AtOrigin(cols);
    AtSteps(cols, r, c);
  }

  /** Every nearest-neighbour pair once, as `(lo, hi)`. */
  ghost predicate SquareBonds(rows: nat, cols: nat, edges: seq<Edge>)
    requires cols > 0
  {
    && (forall i :: 0 <= i < |edges| ==> edges[i].0 < edges[i].1 < rows * cols && Manhattan(cols, edges[i].0, edges[i].1) == 1)
    && (forall p, q :: 0 <= p < q < rows * cols && Manhattan(cols, p, q) == 1 ==> (p, q) in edges)
    && (forall i, j :: 0 <= i < j < |edges| ==> edges[i] != edges[j])
  }

  /** The bonds the builder appends at site `q`: to the right, then down. */
  function BondsAt(rows: nat, cols: nat, q: nat): seq<Edge>
    requires cols > 0
  {
    (if ColOf(cols, q) + 1 < cols then [(q, q + 1)] else []) + (if RowOf(cols, q) + 1 < rows then [(q, q + cols)] else [])
  }

  function BondsBelow(rows: nat, cols: nat, k: nat): seq<Edge>
    requires cols > 0
  {
    if k == 0 then [] else BondsBelow(rows, cols, k - 1) + BondsAt(rows, cols, k - 1)
  }

  /** `square_lattice_edges`. */
  method SquareEdges(rows: nat, cols: nat) returns (out: Result<seq<Edge>>)
    ensures out.Err? <==> rows < 1 || cols < 1
    ensures out.Ok? ==> cols > 0 && SquareBonds(rows, cols, out.value)
  {
    if rows < 1 || cols < 1 {
      return Err;
    }
    hide SquareBonds, BondsAt, RowOf, ColOf, At;
    var edges: seq<Edge> := [];
    AtOrigin(cols);
    for r := 0 to rows
      invariant edges == BondsBelow(rows, cols, At(cols, r, 0))
    {
      for c := 0 to cols
        invariant edges == BondsBelow(rows, cols, At(cols, r, c))
      {
        var here := At(cols, r, c);
        BondsAtSite(rows, cols, r, c);
        AtSteps(cols, r, c);
        var before := edges;
        if c + 1 < cols {
          edges := edges + [(here, here + 1)];
        }
        if r + 1 < rows {
          edges := edges + [(here, here + cols)];
        }
        assert edges == before + BondsAt(rows, cols, here);
      }
      AtSteps(cols, r, 0); AtShift(cols, r);
    }
    AtShift(cols, rows);
    BondsBelowSquare(rows, cols);
    out := Ok(edges);
  }

  lemma AtOrigin(cols: nat)
    ensures At(cols, 0, 0) == 0
  {
  }

  lemma AtShift(cols: nat, r: nat)
    ensures At(cols, r, cols) == At(cols, r + 1, 0) && At(cols, r, 0) == r * cols
  {
  }

  lemma BondsAtSite(rows: nat, cols: nat, r: nat, c: nat)
    requires c < cols
    ensures BondsAt(rows, cols, At(cols, r, c))
         == (if c + 1 < cols then [(At(cols, r, c), At(cols, r, c) + 1)] else [])
            + (if r + 1 < rows then [(At(cols, r, c), At(cols, r, c) + cols)] else [])
  {
    hide RowOf, ColOf, At;
    SplitIndex(cols, r, c);
  }

  /** Neighbours in index order are one apart in a row, or one row apart. */
  lemma NeighbourShape(cols: nat, p: nat, q: nat)
    requires cols > 0 && p < q
    ensures Manhattan(cols, p, q) == 1 <==> (q == p + 1 && ColOf(cols, p) + 1 < cols) || q == p + cols
  {
    hide RowOf, ColOf, At;
    var r, c, r', c' := RowOf(cols, p), ColOf(cols, p), RowOf(cols, q), ColOf(cols, q);
    Decompose(cols, p); Decompose(cols, q);
    AtSteps(cols, r, c);
    if r' < r {
      AtOrder(cols, r', c', r, c);
    }
    if Manhattan(cols, p, q) == 1 && r' == r && c' != c + 1 {
      AtSteps(cols, r, c');
    }
    if q == p + 1 && c + 1 < cols {
      SplitIndex(cols, r, c + 1);
    }
    if q == p + cols {
      SplitIndex(cols, r + 1, c);
    }
  }

  lemma DownBound(rows: nat, cols: nat, q: nat)
    requires cols > 0
    ensures q + cols < rows * cols <==> RowOf(cols, q) + 1 < rows
  {
    hide RowOf, ColOf, At;
    var r, c := RowOf(cols, q), ColOf(cols, q);
    Decompose(cols, q);
    AtSteps(cols, r, c);
    SplitIndex(cols, r + 1, c);
    RowBound(rows, cols, q + cols);
  }

  lemma BondsAtShape(rows: nat, cols: nat, q: nat, e: Edge)
    requires cols > 0 && q < rows * cols
    ensures e in BondsAt(rows, cols, q) <==> e.0 == q && q < e.1 < rows * cols && Manhattan(cols, q, e.1) == 1
  {
    hide RowOf, ColOf, At, Manhattan;
    DownBound(rows, cols, q);
    if q < e.1 {
      NeighbourShape(cols, q, e.1);
    }
    if ColOf(cols, q) + 1 < cols {
      var r, c := RowOf(cols, q), ColOf(cols, q);
      Decompose(cols, q);
      AtSteps(cols, r, c);
      SplitIndex(cols, r, c + 1);
      RowBound(rows, cols, q);
      RowBound(rows, cols, q + 1);
    }
  }

  lemma BondsHere(rows: nat, cols: nat, k: nat)
    requires cols > 0 && k < rows * cols
    ensures forall e: Edge :: e in BondsAt(rows, cols, k) <==>
              e.0 == k && k < e.1 < rows * cols && Manhattan(cols, e.0, e.1) == 1
  {
    hide Manhattan;
    forall e: Edge
      ensures e in BondsAt(rows, cols, k) <==> e.0 == k && k < e.1 < rows * cols && Manhattan(cols, e.0, e.1) == 1
    {
      BondsAtShape(rows, cols, k, e);
    }
  }

  lemma {:induction false} BondsBelowShape(rows: nat, cols: nat, k: nat)
    requires cols > 0 && k <= rows * cols
    ensures forall e: Edge :: e in BondsBelow(rows, cols, k) <==>
              e.0 < k && e.0 < e.1 < rows * cols && Manhattan(cols, e.0, e.1) == 1
  {
    hide Manhattan, BondsAt;
    if k > 0 {
      BondsBelowShape(rows, cols, k - 1);
      BondsHere(rows, cols, k - 1);
    }
  }

  predicate NoneTwice(edges: seq<Edge>) {
    forall i, j :: 0 <= i < j < |edges| ==> edges[i] != edges[j]
  }

  lemma JoinDistinct(a: seq<Edge>, b: seq<Edge>, k: nat)
    requires NoneTwice(a) && NoneTwice(b)
    requires forall e: Edge :: e in a ==> e.0 < k
    requires forall e: Edge :: e in b ==> e.0 == k
    ensures NoneTwice(a + b)
  {
    assert forall i :: 0 <= i < |a| ==> a[i] in a;
    assert forall i :: 0 <= i < |b| ==> b[i] in b;
  }

  lemma BondsAtDistinct(rows: nat, cols: nat, k: nat)
    requires cols > 0
    ensures NoneTwice(BondsAt(rows, cols, k))
  {
    var here := BondsAt(rows, cols, k);
    assert |here| == 2 ==> here[0] != here[1];
  }

  lemma {:induction false} BondsBelowDistinct(rows: nat, cols: nat, k: nat)
    requires cols > 0 && k <= rows * cols
    ensures NoneTwice(BondsBelow(rows, cols, k))
  {
    hide Manhattan, BondsAt, NoneTwice;
    if k > 0 {
      BondsBelowDistinct(rows, cols, k - 1);
      BondsAtDistinct(rows, cols, k - 1);
      BondsBelowShape(rows, cols, k - 1);
      BondsHere(rows, cols, k - 1);
      JoinDistinct(BondsBelow(rows, cols, k - 1), BondsAt(rows, cols, k - 1), k - 1);
    } else {
      NoBonds();
    }
  }

  lemma NoBonds()
    ensures NoneTwice([])
  {
  }

  lemma BondsBelowSquare(rows: nat, cols: nat)
    requires cols > 0
    ensures SquareBonds(rows, cols, BondsBelow(rows, cols, rows * cols))
  {
    hide Manhattan, BondsBelow;
    BondsBelowShape(rows, cols, rows * cols);
    BondsBelowDistinct(rows, cols, rows * cols);
    var edges := BondsBelow(rows, cols, rows * cols);
    assert forall i :: 0 <= i < |edges| ==> edges[i] in edges;
  }

  // ---- The metric ----

  lemma ManhattanTriangle(cols: nat, a: nat, p: nat, q: nat)
    requires cols > 0 && Manhattan(cols, p, q) == 1
    ensures Manhattan(cols, a, q) <= Manhattan(cols, a, p) + 1
    ensures Manhattan(cols, a, p) <= Manhattan(cols, a, q) + 1
  {
    hide RowOf, ColOf;
  }

  /** A site away from `a` has a neighbour one step closer. */
  lemma StepCloser(rows: nat, cols: nat, a: nat, q: nat) returns (p: nat)
    requires cols > 0 && a < rows * cols && q < rows * cols && a != q
    ensures p < rows * cols && Manhattan(cols, p, q) == 1 && Manhattan(cols, q, p) == 1
    ensures Manhattan(cols, a, p) + 1 == Manhattan(cols, a, q)
  {
    hide RowOf, ColOf, At;
    var ra, ca, r, c := RowOf(cols, a), ColOf(cols, a), RowOf(cols, q), ColOf(cols, q);
    Decompose(cols, a); Decompose(cols, q);
    RowBound(rows, cols, a); RowBound(rows, cols, q);
    var r', c' := r, c;
    if ra < r {
      r' := r - 1;
    } else if ra > r {
      r' := r + 1;
    } else if ca < c {
      c' := c - 1;
    } else {
      c' := c + 1;
    }
    p := At(cols, r', c');
    SplitIndex(cols, r', c');
    RowBound(rows, cols, p);
  }

  lemma GrowStep(edges: seq<Edge>, b: set<nat>, q: nat)
    ensures q in Grow(edges, b) <==>
              q in b || exists i :: 0 <= i < |edges| && ((edges[i].0 in b && edges[i].1 == q) || (edges[i].1 in b && edges[i].0 == q))
  {
  }

  /** A bond moves the distance by at most one. */
  lemma ReachedByBond(rows: nat, cols: nat, edges: seq<Edge>, center: nat, b: set<nat>, t: nat, q: nat)
    requires cols > 0 && SquareBonds(rows, cols, edges)
    requires forall p :: 0 <= p < rows * cols ==> (p in b <==> Manhattan(cols, center, p) <= t)
    requires q in Grow(edges, b) && q < rows * cols
    ensures Manhattan(cols, center, q) <= t + 1
  {
    hide Manhattan, Grow;
    GrowStep(edges, b, q);
    if q !in b {
      var i :| 0 <= i < |edges| && ((edges[i].0 in b && edges[i].1 == q) || (edges[i].1 in b && edges[i].0 == q));
      ManhattanTriangle(cols, center, edges[i].0, edges[i].1);
    }
  }

  /** A site at distance `t + 1` has a bond to one at distance `t`. */
  lemma BondReaches(rows: nat, cols: nat, edges: seq<Edge>, center: nat, b: set<nat>, t: nat, q: nat)
    requires cols > 0 && SquareBonds(rows, cols, edges) && center < rows * cols
    requires forall p :: 0 <= p < rows * cols ==> (p in b <==> Manhattan(cols, center, p) <= t)
    requires q < rows * cols && Manhattan(cols, center, q) == t + 1
    ensures q in Grow(edges, b)
  {
    hide Manhattan, Grow;
    ManhattanZero(cols, center, q);
    var p := StepCloser(rows, cols, center, q);
    ManhattanZero(cols, p, q);
    assert p in b;
    GrowStep(edges, b, q);
    if p < q {
      var i :| 0 <= i < |edges| && edges[i] == (p, q);
      assert edges[i].0 in b && edges[i].1 == q;
    } else {
      var i :| 0 <= i < |edges| && edges[i] == (q, p);
      assert edges[i].1 in b && edges[i].0 == q;
    }
  }

  /** `square_lattice_distances` is the graph distance: a site is within `t` bonds iff its entry is at most `t`. */
  lemma {:induction false} ManhattanIsGraphDistance(rows: nat, cols: nat, edges: seq<Edge>, center: nat, t: nat)
    requires cols > 0 && SquareBonds(rows, cols, edges) && center < rows * cols
    ensures forall q :: 0 <= q < rows * cols ==>
              (q in Ball(edges, {center}, t) <==> Manhattan(cols, center, q) <= t)
  {
    hide Manhattan, SquareBonds, Grow;
    if t == 0 {
      forall q | 0 <= q < rows * cols ensures q in Ball(edges, {center}, 0) <==> Manhattan(cols, center, q) <= 0 {
        ManhattanZero(cols, center, q);
      }
    } else {
      var b := Ball(edges, {center}, t - 1);
      ManhattanIsGraphDistance(rows, cols, edges, center, t - 1);
      forall q | 0 <= q < rows * cols ensures q in Ball(edges, {center}, t) <==> Manhattan(cols, center, q) <= t {
        if q in Grow(edges, b) {
          ReachedByBond(rows, cols, edges, center, b, t - 1, q);
        }
        GrowStep(edges, b, q);
        if Manhattan(cols, center, q) == t {
          BondReaches(rows, cols, edges, center, b, t - 1, q);
        }
      }
    }
  }

  lemma ManhattanZero(cols: nat, p: nat, q: nat)
    requires cols > 0
    ensures Manhattan(cols, p, q) == 0 <==> p == q
  {
    hide RowOf, ColOf, At;
    Decompose(cols, p); Decompose(cols, q);
  }

  /** On the square lattice the cone is a Manhattan ball: `steps` Trotter steps move an operator at most `steps` sites. */
  lemma LatticeCone(rows: nat, cols: nat, a: Angles, edges: seq<Edge>, center: nat, steps: nat, keep: Term -> bool,
                    ts: seq<Term>, i: nat, q: nat)
    requires cols > 0 && SquareBonds(rows, cols, edges) && center < rows * cols && a.Valid()
    requires OnQubits(rows * cols, ts) && Distinct(ts) && AllKeys(p => SupportIn(p, {center}), ts)
    ensures CircuitOn(rows * cols, Trotter(rows * cols, a, edges, steps))
    ensures
      var out := Run(rows * cols, Trotter(rows * cols, a, edges, steps), keep, ts);
      i < |out| && q < rows * cols && (out[i].p.x[q] || out[i].p.z[q]) ==> Manhattan(cols, center, q) <= steps
  {
    hide Run, Trotter, Manhattan, Ball;
    ConeOfRun(rows * cols, a, edges, steps, keep, ts, {center});
    ManhattanIsGraphDistance(rows, cols, edges, center, steps);
  }
}
