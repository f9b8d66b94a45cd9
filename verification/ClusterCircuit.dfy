/**
 The builders behind the cluster-state showcase: neighbour lists, labels, the greedy edge coloring, and
 the circuit itself.
 */
module ClusterCircuit {
  import opened Cliffords
  import opened Expectation
  import opened Cluster

  datatype BuildError = EdgeOutside | QubitOutside | BadPauli | BadGate

  datatype Built<T> = Done(value: T) | Failed(error: BuildError)

  // ---- Neighbour lists ----

  predicate Inside(n: nat, e: Edge) {
    0 <= e.0 < n && 0 <= e.1 < n
  }

  /** How often `i` is appended to `adj[q]`: once per edge end, so twice per loop. */
  function Ends(edges: seq<Edge>, q: int, i: int): nat {
    multiset(edges)[(q, i)] + multiset(edges)[(i, q)]
  }

  /** `adj[q]` holds every qubit as often as edges join it to `q`. */
  ghost predicate Neighbours(edges: seq<Edge>, q: int, list: seq<int>) {
    forall i :: multiset(list)[i] == Ends(edges, q, i)
  }

  lemma NeighboursTouch(edges: seq<Edge>, q: int, list: seq<int>)
    requires Neighbours(edges, q, list)
    ensures forall i :: i in list <==> Touch(edges, q, i)
  {
    forall i ensures i in list <==> Touch(edges, q, i) {
      assert i in list <==> multiset(list)[i] > 0;
      assert Touch(edges, q, i) <==> Ends(edges, q, i) > 0;
    }
  }

  lemma SameNeighbours(edges: seq<Edge>, q: int, a: seq<int>, b: seq<int>)
    requires Neighbours(edges, q, a) && multiset(a) == multiset(b)
    ensures Neighbours(edges, q, b)
  {
  }

  lemma NoNeighbours(q: int)
    ensures Neighbours([], q, [])
  {
  }

  predicate Increasing(s: seq<int>) {
    forall i, j :: 0 <= i < j < |s| ==> s[i] <= s[j]
  }

  function InsertInt(x: int, s: seq<int>): (r: seq<int>)
    ensures forall y :: y in r <==> y == x || y in s
  {
    if |s| == 0 || x <= s[0] then [x] + s
    else
      assert s == [s[0]] + s[1..];
      [s[0]] + InsertInt(x, s[1..])
  }

  lemma {:induction false} InsertIntSorts(x: int, s: seq<int>)
    requires Increasing(s)
    ensures Increasing(InsertInt(x, s))
  {
    if |s| > 0 && x > s[0] {
      var rest := InsertInt(x, s[1..]);
      InsertIntSorts(x, s[1..]);
      forall j | 0 <= j < |rest| ensures s[0] <= rest[j] {
        assert rest[j] in rest;
      }
    }
  }

  lemma {:induction false} InsertIntContents(x: int, s: seq<int>)
    ensures multiset(InsertInt(x, s)) == multiset(s) + multiset{x}
  {
    if |s| > 0 && x > s[0] {
      InsertIntContents(x, s[1..]);
      assert s == [s[0]] + s[1..];
    }
  }

  function Sorted(s: seq<int>): seq<int> {
    if |s| == 0 then [] else InsertInt(s[|s| - 1], Sorted(s[..|s| - 1]))
  }

  lemma {:induction false} SortedLaws(s: seq<int>)
    ensures Increasing(Sorted(s)) && multiset(Sorted(s)) == multiset(s)
  {
    hide InsertInt, Increasing;
    if |s| == 0 {
      NothingIncreasing();
    } else {
      var k := |s| - 1;
      SortedLaws(s[..k]);
      InsertIntSorts(s[k], Sorted(s[..k]));
      InsertIntContents(s[k], Sorted(s[..k]));
      assert s == s[..k] + [s[k]];
    }
  }

  lemma NothingIncreasing()
    ensures Increasing([])
  {
  }

  function Qubits(n: nat): (r: set<int>)
    ensures forall q :: q in r <==> 0 <= q < n
  {
    if n == 0 then {} else Qubits(n - 1) + {n - 1}
  }

  /** `grid_adjacency`: an edge outside the register is refused; every qubit has an entry. */
  method GridAdjacency(n: nat, edges: seq<Edge>) returns (r: Built<map<int, seq<int>>>)
    ensures r.Done? <==> forall i :: 0 <= i < |edges| ==> Inside(n, edges[i])
    ensures r.Failed? ==> r.error == EdgeOutside
    ensures r.Done? ==> r.value.Keys == Qubits(n)
    ensures r.Done? ==> forall q :: 0 <= q < n ==> Neighbours(edges, q, r.value[q]) && Increasing(r.value[q])
  {
    hide Neighbours, Increasing;
    var adj: map<int, seq<int>> := map q | q in Qubits(n) :: [];
    forall q | 0 <= q < n ensures Neighbours([], q, adj[q]) {
      NoNeighbours(q);
    }
    assert edges[..0] == [];
    for k := 0 to |edges|
      invariant forall i :: 0 <= i < k ==> Inside(n, edges[i])
      invariant adj.Keys == Qubits(n)
      invariant forall q :: 0 <= q < n ==> Neighbours(edges[..k], q, adj[q])
    {
      var (a, b) := edges[k];
      if !(0 <= a < n) || !(0 <= b < n) {
        assert !Inside(n, edges[k]);
        return Failed(EdgeOutside);
      }
      ghost var before := adj;
      adj := adj[a := adj[a] + [b]];
      adj := adj[b := adj[b] + [a]];
      forall q | 0 <= q < n ensures Neighbours(edges[..k + 1], q, adj[q]) {
        NeighbourStep(edges, k, q, before[q], adj[q]);
      }
    }
    assert edges[..|edges|] == edges;
    var out := map q | q in Qubits(n) :: Sorted(adj[q]);
    forall q | 0 <= q < n ensures Neighbours(edges, q, out[q]) && Increasing(out[q]) {
      SortedLaws(adj[q]);
      SameNeighbours(edges, q, adj[q], out[q]);
    }
    return Done(out);
  }

  lemma NeighbourStep(edges: seq<Edge>, k: nat, q: int, list: seq<int>, longer: seq<int>)
    requires k < |edges| && Neighbours(edges[..k], q, list)
    requires
      var (a, b) := edges[k];
      longer == list + (if q == a then [b] else []) + (if q == b then [a] else [])
    ensures Neighbours(edges[..k + 1], q, longer)
  {
    assert edges[..k + 1] == edges[..k] + [edges[k]];
    assert multiset(edges[..k + 1]) == multiset(edges[..k]) + multiset{edges[k]};
    var (a, b) := edges[k];
    var x: multiset<int>, y: multiset<int> := if q == a then multiset{b} else multiset{}, if q == b then multiset{a} else multiset{};
    assert multiset(longer) == multiset(list) + x + y;
    forall i ensures multiset(longer)[i] == Ends(edges[..k + 1], q, i) {
      assert multiset(list)[i] == Ends(edges[..k], q, i);
      assert x[i] == (if (q, i) == edges[k] then 1 else 0) && y[i] == (if (i, q) == edges[k] then 1 else 0);
    }
  }

  // ---- Labels ----

  /** Entry `k` is the first refused one; a qubit outside the register is noticed before a bad character. */
  ghost predicate FirstBad(support: seq<(int, char)>, n: nat, k: nat, error: BuildError)
    requires k < |support|
  {
    && (forall i :: 0 <= i < k ==> 0 <= support[i].0 < n && PauliChar(support[i].1))
    && (if 0 <= support[k].0 < n then !PauliChar(support[k].1) && error == BadPauli else error == QubitOutside)
  }

  /** `pauli_label`: later entries of the support overwrite earlier ones. */
  method PauliLabel(support: seq<(int, char)>, n: nat) returns (r: Built<string>)
    ensures r.Done? <==> forall k :: 0 <= k < |support| ==> 0 <= support[k].0 < n && support[k].1 in {'I', 'X', 'Y', 'Z'}
    ensures r.Done? ==> |r.value| == n && forall q :: 0 <= q < n ==> r.value[q] == LastChar(support, q)
    ensures r.Failed? ==> exists k :: 0 <= k < |support| && FirstBad(support, n, k, r.error)
  {
    var chars := new char[n](_ => 'I');
    for k := 0 to |support|
      invariant forall i :: 0 <= i < k ==> 0 <= support[i].0 < n && PauliChar(support[i].1)
      invariant forall q :: 0 <= q < n ==> chars[q] == LastChar(support[..k], q)
    {
      var (q, ch) := support[k];
      if !(0 <= q < n) {
        assert FirstBad(support, n, k, QubitOutside);
        return Failed(QubitOutside);
      }
      if !PauliChar(ch) {
        assert FirstBad(support, n, k, BadPauli);
        return Failed(BadPauli);
      }
      chars[q] := ch;
      assert support[..k + 1][..k] == support[..k];
    }
    assert support[..|support|] == support;
    return Done(chars[..]);
  }

  /** The last character the support assigns to `q`, or `I`. */
  function LastChar(support: seq<(int, char)>, q: int): char {
    if |support| == 0 then 'I'
    else
      var (p, ch) := support[|support| - 1];
      if p == q then ch else LastChar(support[..|support| - 1], q)
  }

  lemma {:induction false} ZsLast(q: int, list: seq<int>, i: int)
    ensures LastChar([(q, 'X')] + Zs(list), i) == if i in list then 'Z' else if i == q then 'X' else 'I'
  {
    var all := [(q, 'X')] + Zs(list);
    if |list| == 0 {
      assert all == [(q, 'X')];
      assert all[..0] == [];
    } else {
      var k := |list| - 1;
      ZsLast(q, list[..k], i);
      assert all[..|all| - 1] == [(q, 'X')] + Zs(list[..k]);
      assert list == list[..k] + [list[k]];
    }
  }

  /** A `Z` on each neighbour. */
  function Zs(list: seq<int>): (r: seq<(int, char)>)
    ensures |r| == |list| && forall k :: 0 <= k < |list| ==> r[k] == (list[k], 'Z')
  {
    seq(|list|, k requires 0 <= k < |list| => (list[k], 'Z'))
  }

  /** `cluster_state_stabilizers`: one signed label per qubit, or the adjacency error. */
  method ClusterStateStabilizers(n: nat, edges: seq<Edge>) returns (r: Built<seq<string>>)
    ensures r.Done? <==> forall i :: 0 <= i < |edges| ==> Inside(n, edges[i])
    ensures r.Failed? ==> r.error == EdgeOutside
    ensures r.Done? ==> |r.value| == n && forall q :: 0 <= q < n ==> r.value[q] == "+" + Listed(n, edges, q)
  {
    hide LastChar, Touch, Neighbours;
    var adj := GridAdjacency(n, edges);
    if adj.Failed? {
      return Failed(adj.error);
    }
    var generators: seq<string> := [];
    for q := 0 to n
      invariant |generators| == q && forall i :: 0 <= i < q ==> generators[i] == "+" + Listed(n, edges, i)
    {
      var support := [(q, 'X')] + Zs(adj.value[q]);
      NeighboursTouch(edges, q, adj.value[q]);
      SupportInside(n, edges, q, adj.value[q]);
      var text := PauliLabel(support, n);
      forall i | 0 <= i < n ensures text.value[i] == ListedChar(edges, q, i) {
        ZsLast(q, adj.value[q], i);
      }
      assert text.value == Listed(n, edges, q);
      generators := generators + ["+" + text.value];
    }
    return Done(generators);
  }

  lemma SupportInside(n: nat, edges: seq<Edge>, q: nat, list: seq<int>)
    requires q < n && (forall i :: i in list <==> Touch(edges, q, i)) && forall i :: 0 <= i < |edges| ==> Inside(n, edges[i])
    ensures
      var support := [(q, 'X')] + Zs(list);
      forall k :: 0 <= k < |support| ==> 0 <= support[k].0 < n && PauliChar(support[k].1)
  {
    forall i | i in list ensures 0 <= i < n {
      assert Touch(edges, q, i);
      if (q, i) in edges {
        var k :| 0 <= k < |edges| && edges[k] == (q, i);
        assert Inside(n, edges[k]);
      } else {
        var k :| 0 <= k < |edges| && edges[k] == (i, q);
        assert Inside(n, edges[k]);
      }
    }
    var support := [(q, 'X')] + Zs(list);
    forall k | 0 <= k < |support| ensures 0 <= support[k].0 < n && PauliChar(support[k].1) {
      if k > 0 {
        assert support[k] == (list[k - 1], 'Z') && list[k - 1] in list;
      }
    }
  }

  // ---- The edge coloring ----

  predicate Before(e: Edge, f: Edge) {
    e.0 < f.0 || (e.0 == f.0 && e.1 <= f.1)
  }

  function InsertEdge(e: Edge, s: seq<Edge>): (r: seq<Edge>)
    ensures multiset(r) == multiset(s) + multiset{e}
  {
    if |s| == 0 || Before(e, s[0]) then [e] + s
    else
      assert s == [s[0]] + s[1..];
      [s[0]] + InsertEdge(e, s[1..])
  }

  /** `sorted(edges)`. */
  function SortedEdges(s: seq<Edge>): (r: seq<Edge>)
    ensures multiset(r) == multiset(s)
  {
    if |s| == 0 then []
    else
      assert s == s[..|s| - 1] + [s[|s| - 1]];
      InsertEdge(s[|s| - 1], SortedEdges(s[..|s| - 1]))
  }

  predicate Ordered(s: seq<Edge>) {
    forall i, j :: 0 <= i < j < |s| ==> Before(s[i], s[j])
  }

  lemma {:induction false} InsertOrdered(e: Edge, s: seq<Edge>)
    requires Ordered(s)
    ensures Ordered(InsertEdge(e, s))
    ensures forall f :: f in InsertEdge(e, s) ==> f == e || f in s
  {
    if |s| > 0 && !Before(e, s[0]) {
      var rest := InsertEdge(e, s[1..]);
      InsertOrdered(e, s[1..]);
      forall j | 0 <= j < |rest| ensures Before(s[0], rest[j]) {
        assert rest[j] in rest;
        if rest[j] != e {
          var k :| 0 <= k < |s| - 1 && s[1..][k] == rest[j];
          assert Before(s[0], s[k + 1]);
        }
      }
    }
  }

  lemma {:induction false} SortedOrdered(s: seq<Edge>)
    ensures Ordered(SortedEdges(s))
  {
    if |s| > 0 {
      SortedOrdered(s[..|s| - 1]);
      InsertOrdered(s[|s| - 1], SortedEdges(s[..|s| - 1]));
    }
  }

  predicate Disjoint(e: Edge, f: Edge) {
    e.0 != f.0 && e.0 != f.1 && e.1 != f.0 && e.1 != f.1
  }

  /** No two edges of a class share a qubit. */
  ghost predicate Matching(layer: seq<Edge>) {
    forall i, j :: 0 <= i < j < |layer| ==> Disjoint(layer[i], layer[j])
  }

  function Flatten(classes: seq<seq<Edge>>): seq<Edge> {
    if |classes| == 0 then [] else Flatten(classes[..|classes| - 1]) + classes[|classes| - 1]
  }

  function Used(used: map<int, set<nat>>, q: int): set<nat> {
    if q in used then used[q] else {}
  }

  /** Every edge's color is recorded at both its ends. */
  ghost predicate Recorded(classes: seq<seq<Edge>>, used: map<int, set<nat>>) {
    forall c, i :: 0 <= c < |classes| && 0 <= i < |classes[c]| ==>
      c in Used(used, classes[c][i].0) && c in Used(used, classes[c][i].1)
  }

  lemma {:induction false} FlattenAdd(classes: seq<seq<Edge>>, c: nat, e: Edge)
    requires c < |classes|
    ensures multiset(Flatten(classes[c := classes[c] + [e]])) == multiset(Flatten(classes)) + multiset{e}
  {
    var more := classes[c := classes[c] + [e]];
    var k := |classes| - 1;
    if c == k {
      assert more[..k] == classes[..k];
    } else {
      assert more[..k] == classes[..k][c := classes[..k][c] + [e]];
      FlattenAdd(classes[..k], c, e);
    }
  }

  lemma {:induction false} ColorsBelow(c: nat, s: set<nat>)
    requires forall d :: 0 <= d < c ==> d in s
    ensures c <= |s|
  {
    if c > 0 {
      var t := s - {c - 1};
      ColorsBelow(c - 1, t);
      assert |s| == |t| + 1;
    }
  }

  /** First color free at both ends. */
  method FreeColor(s: set<nat>, t: set<nat>) returns (color: nat)
    ensures color !in s && color !in t
    ensures forall d :: 0 <= d < color ==> d in s || d in t
    ensures color <= |s| + |t|
  {
    color := 0;
    while color in s || color in t
      invariant forall d :: 0 <= d < color ==> d in s || d in t
      decreases |s + t| - color
    {
      ColorsBelow(color + 1, s + t);
      color := color + 1;
    }
    ColorsBelow(color, s + t);
    UnionSize(s, t);
  }

  lemma UnionSize(s: set<nat>, t: set<nat>)
    ensures |s + t| <= |s| + |t|
  {
    assert s + t == s + (t - s);
    assert |s + (t - s)| == |s| + |t - s|;
    assert |t - s| + |t * s| == |t|;
  }

  // ---- Degrees ----

  predicate AtEnd(e: Edge, q: int) {
    e.0 == q || e.1 == q
  }

  /** Edges with an end at `q`. */
  function Degree(edges: seq<Edge>, q: int): nat {
    if |edges| == 0 then 0 else Degree(edges[..|edges| - 1], q) + if AtEnd(edges[|edges| - 1], q) then 1 else 0
  }

  ghost predicate MaxDegree(edges: seq<Edge>, d: nat) {
    forall q :: Degree(edges, q) <= d
  }

  lemma {:induction false} DegreeConcat(a: seq<Edge>, b: seq<Edge>, q: int)
    ensures Degree(a + b, q) == Degree(a, q) + Degree(b, q)
  {
    if |b| == 0 {
      assert a + b == a;
    } else {
      assert (a + b)[..|a + b| - 1] == a + b[..|b| - 1];
      DegreeConcat(a, b[..|b| - 1], q);
    }
  }

  lemma DegreeOne(e: Edge, q: int)
    ensures Degree([e], q) == if AtEnd(e, q) then 1 else 0
  {
    assert [e][..0] == [];
  }

  lemma {:induction false} DegreeInsert(e: Edge, s: seq<Edge>, q: int)
    ensures Degree(InsertEdge(e, s), q) == Degree(s, q) + Degree([e], q)
  {
    hide Degree;
    if |s| == 0 || Before(e, s[0]) {
      DegreeConcat([e], s, q);
    } else {
      assert s == [s[0]] + s[1..];
      DegreeInsert(e, s[1..], q);
      DegreeConcat([s[0]], s[1..], q);
      DegreeConcat([s[0]], InsertEdge(e, s[1..]), q);
    }
  }

  lemma {:induction false} DegreeSorted(s: seq<Edge>, q: int)
    ensures Degree(SortedEdges(s), q) == Degree(s, q)
  {
    if |s| > 0 {
      var k := |s| - 1;
      DegreeSorted(s[..k], q);
      DegreeInsert(s[k], SortedEdges(s[..k]), q);
      DegreeOne(s[k], q);
    }
  }

  /** No qubit has more colors than edges so far. */
  ghost predicate FewColors(used: map<int, set<nat>>, edges: seq<Edge>) {
    forall q :: |Used(used, q)| <= Degree(edges, q)
  }

  /** The first free color of the next edge is at most `2 d - 2`. */
  lemma ColorBound(used: map<int, set<nat>>, order: seq<Edge>, k: nat, color: nat, d: nat)
    requires k < |order| && FewColors(used, order[..k]) && MaxDegree(order, d)
    requires color <= |Used(used, order[k].0)| + |Used(used, order[k].1)|
    ensures color + 2 <= 2 * d
  {
    hide Degree, Used;
    EndDegree(order, k, order[k].0); EndDegree(order, k, order[k].1);
  }

  lemma EndDegree(order: seq<Edge>, k: nat, q: int)
    requires k < |order| && AtEnd(order[k], q)
    ensures Degree(order[..k], q) + 1 <= Degree(order, q)
  {
    assert order == order[..k] + ([order[k]] + order[k + 1..]);
    DegreeConcat(order[..k], [order[k]] + order[k + 1..], q);
    DegreeConcat([order[k]], order[k + 1..], q);
    DegreeOne(order[k], q);
  }

  lemma FewColorsStep(used: map<int, set<nat>>, order: seq<Edge>, k: nat, c: nat)
    requires k < |order| && FewColors(used, order[..k])
    ensures
      var e := order[k];
      var once := used[e.0 := Used(used, e.0) + {c}];
      FewColors(once[e.1 := Used(once, e.1) + {c}], order[..k + 1])
  {
    hide Used, Degree;
    var e := order[k];
    var once := used[e.0 := Used(used, e.0) + {c}];
    var twice := once[e.1 := Used(once, e.1) + {c}];
    forall q ensures |Used(twice, q)| <= Degree(order[..k + 1], q) {
      assert |Used(used, q)| <= Degree(order[..k], q);
      UsedStep(used, e, c, q);
      DegreeStep(order, k, q);
    }
  }

  lemma DegreeStep(order: seq<Edge>, k: nat, q: int)
    requires k < |order|
    ensures Degree(order[..k + 1], q) == Degree(order[..k], q) + if AtEnd(order[k], q) then 1 else 0
  {
    assert order[..k + 1][..k] == order[..k];
  }

  lemma UsedStep(used: map<int, set<nat>>, e: Edge, c: nat, q: int)
    ensures
      var once := used[e.0 := Used(used, e.0) + {c}];
      var twice := once[e.1 := Used(once, e.1) + {c}];
      |Used(twice, q)| <= |Used(used, q)| + if AtEnd(e, q) then 1 else 0
  {
    var once := used[e.0 := Used(used, e.0) + {c}];
    var twice := once[e.1 := Used(once, e.1) + {c}];
    if AtEnd(e, q) {
      assert Used(twice, q) <= Used(used, q) + {c};
      OneMore(Used(used, q), Used(twice, q), c);
    }
  }

  lemma OneMore(s: set<nat>, t: set<nat>, c: nat)
    requires t <= s + {c}
    ensures |t| <= |s| + 1
  {
    Smaller(t, s + {c});
    UnionSize(s, {c});
  }

  lemma {:induction false} Smaller(a: set<nat>, b: set<nat>)
    requires a <= b
    ensures |a| <= |b|
  {
    assert b == a + (b - a);
    assert |a + (b - a)| == |a| + |b - a|;
  }

  /** The state of the greedy loop after some edges. */
  ghost predicate Colored(classes: seq<seq<Edge>>, used: map<int, set<nat>>, edges: seq<Edge>) {
    && multiset(Flatten(classes)) == multiset(edges)
    && (forall c :: 0 <= c < |classes| ==> Matching(classes[c]))
    && Recorded(classes, used) && FewColors(used, edges)
  }

  /** At most `2 d - 1` classes when no qubit has more than `d` edges. */
  ghost predicate FewClasses(edges: seq<Edge>, classes: nat) {
    forall d: nat :: d >= 1 && MaxDegree(edges, d) ==> classes <= 2 * d - 1
  }

  lemma LayerStep(classes: seq<seq<Edge>>, used: map<int, set<nat>>, edges: seq<Edge>, layer: seq<Edge>)
    requires Colored(classes, used, edges) && |layer| == 0
    ensures Colored(classes + [layer], used, edges)
  {
    hide Flatten, Recorded, Matching, FewColors;
    EmptyClass(classes, used, layer);
  }

  lemma EdgeStep(classes: seq<seq<Edge>>, used: map<int, set<nat>>, order: seq<Edge>, k: nat, c: nat)
    requires k < |order| && c < |classes| && Colored(classes, used, order[..k])
    requires c !in Used(used, order[k].0) && c !in Used(used, order[k].1)
    ensures
      var e := order[k];
      var once := used[e.0 := Used(used, e.0) + {c}];
      Colored(classes[c := classes[c] + [e]], once[e.1 := Used(once, e.1) + {c}], order[..k + 1])
  {
    hide Flatten, Recorded, Matching, FewColors, Used;
    FlattenAdd(classes, c, order[k]);
    assert order[..k + 1] == order[..k] + [order[k]];
    ColorEdge(classes, used, c, order[k]);
    FewColorsStep(used, order, k, c);
  }

  lemma ColorFits(classes: seq<seq<Edge>>, used: map<int, set<nat>>, order: seq<Edge>, k: nat, color: nat)
    requires k < |order| && Colored(classes, used, order[..k])
    requires color <= |Used(used, order[k].0)| + |Used(used, order[k].1)|
    ensures FewClasses(order, color + 1)
  {
    hide Flatten, Recorded, Matching, FewColors, MaxDegree, Used;
    forall d: nat | d >= 1 && MaxDegree(order, d) ensures color + 1 <= 2 * d - 1 {
      ColorBound(used, order, k, color, d);
    }
  }

  /**
   `heavy_hex_edge_coloring`: a partition of the edges into matchings, with at most `2 d - 1` classes when no
   qubit has more than `d` edges; first fit in sorted order, so an edge is kept out of each lower class by a
   smaller edge of that class.
   */
  method EdgeColoring(edges: seq<Edge>) returns (classes: seq<seq<Edge>>)
    ensures multiset(Flatten(classes)) == multiset(edges)
    ensures forall c :: 0 <= c < |classes| ==> Matching(classes[c])
    ensures FewClasses(edges, |classes|)
    ensures FirstFit(classes)
  {
    hide Flatten, Matching, Used, Progress, FirstFit, FewClasses;
    var order := SortedEdges(edges);
    var used: map<int, set<nat>> := map[];
    classes := [];
    SortedOrdered(edges);
    ProgressStart(used, order);
    for k := 0 to |order|
      invariant Progress(classes, used, order, k, |classes|)
    {
      var (a, b) := order[k];
      var color := FreeColor(Used(used, a), Used(used, b));
      ProgressColor(classes, used, order, k, color);
      while |classes| <= color
        invariant Progress(classes, used, order, k, color) && color <= |classes| && FewClasses(order, color + 1)
      {
        ProgressLayer(classes, used, order, k, color);
        classes := classes + [[]];
      }
      ProgressEdge(classes, used, order, k, color);
      classes := classes[color := classes[color] + [order[k]]];
      used := used[a := Used(used, a) + {color}];
      used := used[b := Used(used, b) + {color}];
    }
    ProgressEnd(edges, classes, used, order);
  }

  /** The loop after `k` edges; the class of color `c` may still be empty. */
  ghost predicate Progress(classes: seq<seq<Edge>>, used: map<int, set<nat>>, order: seq<Edge>, k: nat, c: nat)
    requires k <= |order|
  {
    && Ordered(order) && Colored(classes, used, order[..k]) && FewClasses(order, |classes|)
    && Greedy(classes, used) && Filled(classes, c) && (k < |order| ==> Earlier(classes, order[k]))
  }

  lemma ProgressStart(used: map<int, set<nat>>, order: seq<Edge>)
    requires used == map[] && Ordered(order)
    ensures Progress([], used, order, 0, 0)
  {
    hide Colored, FewClasses, Greedy, Ordered, Filled, Earlier;
    Uncolored(used, order);
    GreedyNone(used);
  }

  lemma ProgressColor(classes: seq<seq<Edge>>, used: map<int, set<nat>>, order: seq<Edge>, k: nat, color: nat)
    requires k < |order| && Progress(classes, used, order, k, |classes|)
    requires color <= |Used(used, order[k].0)| + |Used(used, order[k].1)|
    requires forall d :: 0 <= d < color ==> d in Used(used, order[k].0) || d in Used(used, order[k].1)
    ensures Progress(classes, used, order, k, color) && color <= |classes| && FewClasses(order, color + 1)
  {
    hide Colored, FewClasses, Greedy, Ordered, Filled, Earlier, Used;
    ColorKnown(classes, used, order[k], color);
    ColorFits(classes, used, order, k, color);
  }

  lemma ProgressLayer(classes: seq<seq<Edge>>, used: map<int, set<nat>>, order: seq<Edge>, k: nat, color: nat)
    requires k < |order| && Progress(classes, used, order, k, color) && |classes| == color && FewClasses(order, color + 1)
    ensures Progress(classes + [[]], used, order, k, color)
  {
    hide Colored, FewClasses, Greedy, Ordered, Filled, Earlier;
    GreedyLayer(classes, used, order[k], color);
    LayerStep(classes, used, order[..k], []);
  }

  lemma ProgressEdge(classes: seq<seq<Edge>>, used: map<int, set<nat>>, order: seq<Edge>, k: nat, c: nat)
    requires k < |order| && c < |classes| && Progress(classes, used, order, k, c)
    requires c !in Used(used, order[k].0) && c !in Used(used, order[k].1)
    requires forall d :: 0 <= d < c ==> d in Used(used, order[k].0) || d in Used(used, order[k].1)
    ensures
      var e := order[k];
      var once, more := used[e.0 := Used(used, e.0) + {c}], classes[c := classes[c] + [e]];
      Progress(more, once[e.1 := Used(once, e.1) + {c}], order, k + 1, |more|)
  {
    hide Colored, FewClasses, Greedy, Ordered, Filled, Earlier, Used;
    EdgeStep(classes, used, order, k, c);
    GreedyStep(classes, used, order[k], c);
    if k + 1 < |order| {
      StillEarlier(classes, order, k, c);
    }
  }

  lemma ProgressEnd(edges: seq<Edge>, classes: seq<seq<Edge>>, used: map<int, set<nat>>, order: seq<Edge>)
    requires order == SortedEdges(edges) && Progress(classes, used, order, |order|, |classes|)
    ensures multiset(Flatten(classes)) == multiset(edges) && forall c :: 0 <= c < |classes| ==> Matching(classes[c])
    ensures FewClasses(edges, |classes|) && FirstFit(classes)
  {
    hide Colored, FewClasses, Greedy, Ordered, Filled, Earlier, FirstFit;
    assert order[..|order|] == order;
    ColoredIs(classes, used, order);
    SortedClasses(edges, |classes|);
    GreedyIs(classes, used);
  }

  lemma Uncolored(used: map<int, set<nat>>, order: seq<Edge>)
    requires used == map[]
    ensures Colored([], used, order[..0]) && FewClasses(order, 0)
  {
    NoClasses(used);
  }

  lemma ColoredIs(classes: seq<seq<Edge>>, used: map<int, set<nat>>, edges: seq<Edge>)
    requires Colored(classes, used, edges)
    ensures multiset(Flatten(classes)) == multiset(edges) && forall c :: 0 <= c < |classes| ==> Matching(classes[c])
  {
  }

  lemma SortedClasses(edges: seq<Edge>, classes: nat)
    requires FewClasses(SortedEdges(edges), classes)
    ensures FewClasses(edges, classes)
  {
    hide MaxDegree;
    forall d: nat | d >= 1 && MaxDegree(edges, d) ensures classes <= 2 * d - 1 {
      SameDegrees(edges, d);
    }
  }

  lemma SameDegrees(edges: seq<Edge>, d: nat)
    requires MaxDegree(edges, d)
    ensures MaxDegree(SortedEdges(edges), d)
  {
    forall q ensures Degree(SortedEdges(edges), q) <= d {
      DegreeSorted(edges, q);
    }
  }

  lemma NoClasses(used: map<int, set<nat>>)
    ensures Flatten([]) == [] && Recorded([], used)
  {
  }

  lemma EmptyClass(classes: seq<seq<Edge>>, used: map<int, set<nat>>, layer: seq<Edge>)
    requires Recorded(classes, used) && |layer| == 0
    ensures Recorded(classes + [layer], used) && Matching(layer)
    ensures Flatten(classes + [layer]) == Flatten(classes)
  {
    var more := classes + [layer];
    assert more[..|classes|] == classes;
    assert Flatten(more) == Flatten(classes) + layer;
    forall c, i | 0 <= c < |more| && 0 <= i < |more[c]|
      ensures c in Used(used, more[c][i].0) && c in Used(used, more[c][i].1)
    {
      assert more[c] == classes[c];
    }
  }

  /** Adding an edge to a class whose color is free at both ends. */
  lemma ColorEdge(classes: seq<seq<Edge>>, used: map<int, set<nat>>, c: nat, e: Edge)
    requires c < |classes| && Matching(classes[c]) && Recorded(classes, used)
    requires c !in Used(used, e.0) && c !in Used(used, e.1)
    ensures Matching(classes[c] + [e])
    ensures
      var once := used[e.0 := Used(used, e.0) + {c}];
      Recorded(classes[c := classes[c] + [e]], once[e.1 := Used(once, e.1) + {c}])
  {
    forall i | 0 <= i < |classes[c]| ensures Disjoint(classes[c][i], e) {
      assert c in Used(used, classes[c][i].0) && c in Used(used, classes[c][i].1);
    }
  }

  // ---- First fit ----

  /** A smaller edge of class `d` shares an end with `e`. */
  predicate Blocked(classes: seq<seq<Edge>>, e: Edge, d: nat) {
    d < |classes| && exists j :: 0 <= j < |classes[d]| && Blocks(classes[d][j], e)
  }

  predicate Blocks(f: Edge, e: Edge) {
    !Disjoint(f, e) && Before(f, e)
  }

  predicate BlockedBelow(classes: seq<seq<Edge>>, e: Edge, c: nat) {
    forall d :: 0 <= d < c ==> Blocked(classes, e, d)
  }

  /** Sorted classes, none empty, each edge blocked from every lower one. */
  ghost predicate FirstFit(classes: seq<seq<Edge>>) {
    && (forall c :: 0 <= c < |classes| ==> |classes[c]| > 0 && Ordered(classes[c]))
    && (forall c, i :: 0 <= c < |classes| && 0 <= i < |classes[c]| ==> BlockedBelow(classes, classes[c][i], c))
  }

  predicate HasEnd(classes: seq<seq<Edge>>, d: nat, q: int) {
    d < |classes| && exists j :: 0 <= j < |classes[d]| && AtEnd(classes[d][j], q)
  }

  /** Every color recorded at a qubit comes from an edge of that class. */
  ghost predicate Noted(classes: seq<seq<Edge>>, used: map<int, set<nat>>) {
    forall q, d :: d in Used(used, q) ==> HasEnd(classes, d, q)
  }

  ghost predicate Greedy(classes: seq<seq<Edge>>, used: map<int, set<nat>>) {
    && Noted(classes, used)
    && (forall c :: 0 <= c < |classes| ==> Ordered(classes[c]))
    && (forall c, i :: 0 <= c < |classes| && 0 <= i < |classes[c]| ==> BlockedBelow(classes, classes[c][i], c))
  }

  /** All edges so far come before the next. */
  ghost predicate Earlier(classes: seq<seq<Edge>>, e: Edge) {
    forall c, i :: 0 <= c < |classes| && 0 <= i < |classes[c]| ==> Before(classes[c][i], e)
  }

  /** Only the class of color `c` may be empty. */
  ghost predicate Filled(classes: seq<seq<Edge>>, c: nat) {
    forall d :: 0 <= d < |classes| && d != c ==> |classes[d]| > 0
  }

  lemma GreedyNone(used: map<int, set<nat>>)
    requires used == map[]
    ensures Greedy([], used) && Filled([], 0) && forall e :: Earlier([], e)
  {
  }

  lemma GreedyIs(classes: seq<seq<Edge>>, used: map<int, set<nat>>)
    requires Greedy(classes, used) && Filled(classes, |classes|)
    ensures FirstFit(classes)
  {
    hide Noted, Ordered, BlockedBelow;
  }

  /** A first free color is the next new one at most. */
  lemma ColorKnown(classes: seq<seq<Edge>>, used: map<int, set<nat>>, e: Edge, color: nat)
    requires Greedy(classes, used) && Filled(classes, |classes|)
    requires forall d :: 0 <= d < color ==> d in Used(used, e.0) || d in Used(used, e.1)
    ensures color <= |classes| && Filled(classes, color)
  {
    hide Used, Ordered, BlockedBelow;
    if color > 0 {
      var d := color - 1;
      assert d in Used(used, e.0) || d in Used(used, e.1);
      assert HasEnd(classes, d, e.0) || HasEnd(classes, d, e.1);
    }
  }

  /** Classes that extend others block at least as much. */
  ghost predicate Extends(classes: seq<seq<Edge>>, more: seq<seq<Edge>>) {
    |classes| <= |more| && forall c, i :: 0 <= c < |classes| && 0 <= i < |classes[c]| ==> i < |more[c]| && more[c][i] == classes[c][i]
  }

  lemma ExtendsKeeps(classes: seq<seq<Edge>>, more: seq<seq<Edge>>, used: map<int, set<nat>>, e: Edge, c: nat)
    requires Extends(classes, more)
    ensures Noted(classes, used) ==> Noted(more, used)
    ensures BlockedBelow(classes, e, c) ==> BlockedBelow(more, e, c)
  {
    hide Used, Blocks, AtEnd;
    if BlockedBelow(classes, e, c) {
      forall d | 0 <= d < c ensures Blocked(more, e, d) {
        assert Blocked(classes, e, d);
        var j :| 0 <= j < |classes[d]| && Blocks(classes[d][j], e);
        assert more[d][j] == classes[d][j];
      }
    }
    if Noted(classes, used) {
      forall q, d | d in Used(used, q) ensures HasEnd(more, d, q) {
        assert HasEnd(classes, d, q);
        var j :| 0 <= j < |classes[d]| && AtEnd(classes[d][j], q);
        assert more[d][j] == classes[d][j];
      }
    }
  }

  lemma GreedyLayer(classes: seq<seq<Edge>>, used: map<int, set<nat>>, e: Edge, color: nat)
    requires Greedy(classes, used) && Filled(classes, color) && |classes| == color && Earlier(classes, e)
    ensures
      var more := classes + [[]];
      Greedy(more, used) && Filled(more, color) && Earlier(more, e)
  {
    hide Noted, BlockedBelow, Before;
    var more := classes + [[]];
    assert Extends(classes, more);
    ExtendsKeeps(classes, more, used, e, 0);
    forall c, i | 0 <= c < |more| && 0 <= i < |more[c]| ensures BlockedBelow(more, more[c][i], c) {
      assert more[c] == classes[c];
      ExtendsKeeps(classes, more, used, more[c][i], c);
    }
  }

  lemma LastOrdered(s: seq<Edge>, e: Edge)
    requires Ordered(s) && forall i :: 0 <= i < |s| ==> Before(s[i], e)
    ensures Ordered(s + [e])
  {
    hide Before;
  }

  /** The chosen class takes the edge; every lower color was taken by an earlier edge at one of its ends. */
  lemma GreedyStep(classes: seq<seq<Edge>>, used: map<int, set<nat>>, e: Edge, c: nat)
    requires Greedy(classes, used) && Filled(classes, c) && Earlier(classes, e) && c < |classes|
    requires forall d :: 0 <= d < c ==> d in Used(used, e.0) || d in Used(used, e.1)
    ensures
      var once, more := used[e.0 := Used(used, e.0) + {c}], classes[c := classes[c] + [e]];
      Greedy(more, once[e.1 := Used(once, e.1) + {c}]) && Filled(more, |more|)
  {
    hide Before, Noted, BlockedBelow;
    var once, more := used[e.0 := Used(used, e.0) + {c}], classes[c := classes[c] + [e]];
    var twice := once[e.1 := Used(once, e.1) + {c}];
    LastOrdered(classes[c], e);
    assert Extends(classes, more);
    EdgeBlocked(classes, used, e, c);
    ExtendsKeeps(classes, more, used, e, c);
    NotedStep(more, used, e, c);
    forall b, i | 0 <= b < |more| && 0 <= i < |more[b]| ensures BlockedBelow(more, more[b][i], b) {
      if b < |classes| && i < |classes[b]| {
        ExtendsKeeps(classes, more, used, classes[b][i], b);
      }
    }
  }

  lemma EdgeBlocked(classes: seq<seq<Edge>>, used: map<int, set<nat>>, e: Edge, c: nat)
    requires Noted(classes, used) && Earlier(classes, e)
    requires forall d :: 0 <= d < c ==> d in Used(used, e.0) || d in Used(used, e.1)
    ensures BlockedBelow(classes, e, c)
  {
    hide Before, Used;
    forall d | 0 <= d < c ensures Blocked(classes, e, d) {
      var q := if d in Used(used, e.0) then e.0 else e.1;
      assert HasEnd(classes, d, q);
      var j :| 0 <= j < |classes[d]| && AtEnd(classes[d][j], q);
      assert Blocks(classes[d][j], e);
    }
  }

  lemma NotedStep(more: seq<seq<Edge>>, used: map<int, set<nat>>, e: Edge, c: nat)
    requires Noted(more, used) && c < |more| && |more[c]| > 0 && more[c][|more[c]| - 1] == e
    ensures
      var once := used[e.0 := Used(used, e.0) + {c}];
      Noted(more, once[e.1 := Used(once, e.1) + {c}])
  {
    var once := used[e.0 := Used(used, e.0) + {c}];
    var twice := once[e.1 := Used(once, e.1) + {c}];
    forall q, d | d in Used(twice, q) ensures HasEnd(more, d, q) {
      if d in Used(used, q) {
        assert HasEnd(more, d, q);
      } else {
        assert d == c && AtEnd(more[c][|more[c]| - 1], q);
      }
    }
  }

  lemma StillEarlier(classes: seq<seq<Edge>>, order: seq<Edge>, k: nat, c: nat)
    requires k + 1 < |order| && Earlier(classes, order[k]) && c < |classes| && Ordered(order)
    ensures Earlier(classes[c := classes[c] + [order[k]]], order[k + 1])
  {
  }

  // ---- The circuit ----

  /** The layers a preparation emits: a matching partition with few classes, or one sorted layer. */
  ghost predicate Layers(edges: seq<Edge>, colorLayers: bool, groups: seq<seq<Edge>>) {
    && multiset(Flatten(groups)) == multiset(edges)
    && (colorLayers ==>
          && (forall c :: 0 <= c < |groups| ==> Matching(groups[c]))
          && FewClasses(edges, |groups|) && FirstFit(groups))
    && (!colorLayers ==> |groups| == 1 && Ordered(groups[0]))
  }

  /** `cluster_prep_circuit`: refuses a loop or an edge outside the register; otherwise Hadamards, then the CZs layer by layer. */
  method ClusterPrepCircuit(n: nat, edges: seq<Edge>, colorLayers: bool)
    returns (r: Built<seq<Gate>>, ghost groups: seq<seq<Edge>>)
    ensures r.Done? <==> forall i :: 0 <= i < |edges| ==> 0 <= edges[i].0 < n && 0 <= edges[i].1 < n && edges[i].0 != edges[i].1
    ensures r.Done? ==> Bonds(n, edges)
    ensures r.Failed? ==> r.error == BadGate
    ensures Layers(edges, colorLayers, groups)
    ensures r.Done? ==> Bonds(n, Flatten(groups)) && r.value == Preparation(n, Flatten(groups))
  {
    hide Flatten, FewClasses, Matching, Ordered, FirstFit;
    var gates := Hadamards(n);
    var layers := [SortedEdges(edges)];
    OneGroup(SortedEdges(edges));
    SortedOrdered(edges);
    if colorLayers {
      layers := EdgeColoring(edges);
    }
    groups := layers;
    var todo := Flatten(layers);
    SameBonds(n, edges, todo);
    for k := 0 to |todo|
      invariant Bonds(n, todo[..k]) && gates == Preparation(n, todo[..k])
    {
      var e := todo[k];
      if !Bond(n, e) {
        return Failed(BadGate), groups;
      }
      assert todo[..k + 1] == todo[..k] + [e];
      assert CzLayer(n, todo[..k + 1]) == CzLayer(n, todo[..k]) + [CzOf(n, e)];
      gates := gates + [CzOf(n, e)];
    }
    assert todo[..|todo|] == todo;
    return Done(gates), groups;
  }

  lemma OneGroup(s: seq<Edge>)
    ensures Flatten([s]) == s
  {
    assert [s][..0] == [];
    assert Flatten([]) == [];
  }

  lemma SameBonds(n: nat, a: seq<Edge>, b: seq<Edge>)
    requires multiset(a) == multiset(b)
    ensures Bonds(n, a) <==> Bonds(n, b)
  {
    assert forall e :: e in a <==> e in multiset(a);
    assert forall e :: e in b <==> e in multiset(b);
    if Bonds(n, a) {
      forall i | 0 <= i < |b| ensures Bond(n, b[i]) {
        assert b[i] in a;
      }
    }
    if Bonds(n, b) {
      forall i | 0 <= i < |a| ensures Bond(n, a[i]) {
        assert a[i] in b;
      }
    }
  }
}
