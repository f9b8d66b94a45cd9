/**
 Cluster-state preparation: one Hadamard per qubit and one CZ per edge, in any order, against the list of
 generators read off the graph.
 */
module Cluster {
  import opened Paulis
  import opened OleTrace
  import opened Cliffords
  import opened Expectation

  type Edge = (int, int)

  /** What the circuit builder accepts: both ends in range, and different. */
  predicate Bond(n: nat, e: Edge) {
    0 <= e.0 < n && 0 <= e.1 < n && e.0 != e.1
  }

  predicate Bonds(n: nat, edges: seq<Edge>) {
    forall i :: 0 <= i < |edges| ==> Bond(n, edges[i])
  }

  /** How many edges join `a` and `b`, in either spelling. */
  function Multiplicity(edges: seq<Edge>, a: int, b: int): nat {
    multiset(edges)[(a, b)] + if a == b then 0 else multiset(edges)[(b, a)]
  }

  function Hadamards(n: nat): seq<Gate> {
    if n == 0 then [] else Hadamards(n - 1) + [H(n - 1)]
  }

  function CzOf(n: nat, e: Edge): (g: Gate)
    requires Bond(n, e)
    ensures g.On(n)
  {
    Cz(e.0, e.1)
  }

  function CzLayer(n: nat, edges: seq<Edge>): (gs: seq<Gate>)
    requires Bonds(n, edges)
    ensures |gs| == |edges| && GatesOn(n, gs) && forall i :: 0 <= i < |gs| ==> gs[i] == CzOf(n, edges[i])
  {
    seq(|edges|, i requires 0 <= i < |edges| => CzOf(n, edges[i]))
  }

  /** `+Z_q`, a generator of the all-zero state. */
  function ZeroGenerator(n: nat, q: nat): Signed {
    Signed(Single(n, q, false, true), false)
  }

  /** `X_q` times a `Z` on every qubit an odd number of edges joins to `q`. */
  function OddRow(n: nat, edges: seq<Edge>, q: nat): (r: Row)
    ensures |r| == n && forall i :: 0 <= i < n ==> r[i] == (i != q && Multiplicity(edges, q, i) % 2 == 1)
  {
    seq(n, i requires 0 <= i < n => i != q && Multiplicity(edges, q, i) % 2 == 1)
  }

  function Grown(n: nat, edges: seq<Edge>, q: nat): (s: Signed)
    ensures s.p.On(n)
  {
    Signed(Pauli(Single(n, q, true, false).x, OddRow(n, edges, q)), false)
  }

  // ---- The circuit ----

  lemma {:induction false} HadamardsOn(n: nat, k: nat)
    requires k <= n
    ensures GatesOn(n, Hadamards(k))
  {
    if k > 0 {
      HadamardsOn(n, k - 1);
    }
  }

  /** After the Hadamards on the first `k` qubits, `+Z_q` is `+X_q` iff `q` is among them. */
  lemma {:induction false} HadamardLayer(n: nat, k: nat, q: nat)
    requires k <= n && q < n
    ensures GatesOn(n, Hadamards(k))
    ensures Push(Hadamards(k), ZeroGenerator(n, q)) == Signed(Single(n, q, q < k, q >= k), false)
  {
    hide Push, ApplyGate, GatesOn;
    HadamardsOn(n, k);
    if k == 0 {
      PushNone(ZeroGenerator(n, q));
    } else {
      HadamardsOn(n, k - 1);
      HadamardLayer(n, k - 1, q);
      PushStep(Hadamards(k - 1), H(k - 1), ZeroGenerator(n, q));
      var s := Signed(Single(n, q, q < k - 1, q >= k - 1), false);
      GateRule(H(k - 1), s);
      SameString(ApplyGate(H(k - 1), s).p, Single(n, q, q < k, q >= k));
    }
  }

  lemma PushNone(s: Signed)
    requires s.p.On(|s.p.x|)
    ensures GatesOn(|s.p.x|, []) && Push([], s) == s
  {
  }

  lemma OneMoreEdge(n: nat, edges: seq<Edge>, e: Edge, q: nat, i: nat)
    requires Bond(n, e) && i != q
    ensures Multiplicity(edges + [e], q, i) == Multiplicity(edges, q, i) + if e == (q, i) || e == (i, q) then 1 else 0
  {
    assert multiset(edges + [e]) == multiset(edges) + multiset{e};
  }

  /** One CZ toggles the `Z` opposite the generator's own qubit, and no sign ever appears. */
  lemma CzGrows(n: nat, edges: seq<Edge>, e: Edge, q: nat)
    requires Bond(n, e) && q < n
    ensures ApplyGate(CzOf(n, e), Grown(n, edges, q)) == Grown(n, edges + [e], q)
  {
    hide ApplyGate, Multiplicity;
    var s, t := Grown(n, edges, q), Grown(n, edges + [e], q);
    GateRule(CzOf(n, e), s);
    forall i | 0 <= i < n && i != q
      ensures Multiplicity(edges + [e], q, i) == Multiplicity(edges, q, i) + if e == (q, i) || e == (i, q) then 1 else 0
    {
      OneMoreEdge(n, edges, e, q, i);
    }
    SameString(ApplyGate(CzOf(n, e), s).p, t.p);
  }

  /** Pushing `+X_q` through the CZs of an edge list. */
  lemma {:induction false} CzLayerGrows(n: nat, edges: seq<Edge>, q: nat)
    requires Bonds(n, edges) && q < n
    ensures Push(CzLayer(n, edges), Signed(Single(n, q, true, false), false)) == Grown(n, edges, q)
  {
    hide Push, ApplyGate, Grown, GatesOn;
    var s := Signed(Single(n, q, true, false), false);
    if |edges| == 0 {
      assert CzLayer(n, edges) == [];
      PushNone(s);
      NoEdges(n, edges, q);
    } else {
      var k := |edges| - 1;
      var fewer, e := edges[..k], edges[k];
      CzLayerGrows(n, fewer, q);
      assert CzLayer(n, edges) == CzLayer(n, fewer) + [CzOf(n, e)];
      PushStep(CzLayer(n, fewer), CzOf(n, e), s);
      CzGrows(n, fewer, e, q);
      assert fewer + [e] == edges;
    }
  }

  lemma NoEdges(n: nat, edges: seq<Edge>, q: nat)
    requires |edges| == 0
    ensures Grown(n, edges, q) == Signed(Single(n, q, true, false), false)
  {
    SameString(Grown(n, edges, q).p, Single(n, q, true, false));
  }

  /** The preparation of an edge list, its CZs in a given order. */
  function Preparation(n: nat, order: seq<Edge>): seq<Gate>
    requires Bonds(n, order)
  {
    Hadamards(n) + CzLayer(n, order)
  }

  /** The circuit turns `+Z_q` into the graph's generator, whatever the order of the CZs. */
  lemma Prepared(n: nat, edges: seq<Edge>, order: seq<Edge>, q: nat)
    requires Bonds(n, order) && multiset(order) == multiset(edges) && q < n
    ensures GatesOn(n, Preparation(n, order))
    ensures Push(Preparation(n, order), ZeroGenerator(n, q)) == Grown(n, edges, q)
  {
    hide Push, Hadamards, Single;
    HadamardLayer(n, n, q);
    PushConcat(Hadamards(n), CzLayer(n, order), ZeroGenerator(n, q));
    CzLayerGrows(n, order, q);
    assert OddRow(n, order, q) == OddRow(n, edges, q);
  }

  // ---- The generators commute ----

  lemma {:induction false} OneBit(n: nat, q: nat, a: Row)
    requires q < n && |a| == n
    ensures Popcount(And(Single(n, q, true, false).x, a)) == Bit(a[q])
    ensures Popcount(And(a, Single(n, q, true, false).x)) == Bit(a[q])
  {
    var e := Single(n, q, true, false).x;
    RowSymmetry(e, a);
    var b := And(e, a);
    if n > 1 || q > 0 {
      RowTails(e, a);
      if q == 0 {
        assert b[1..] == NoBits(n - 1);
        PopcountNone(n - 1);
      } else {
        assert e[1..] == Single(n - 1, q - 1, true, false).x;
        OneBit(n - 1, q - 1, a[1..]);
      }
    } else {
      assert b == [a[0]];
    }
  }

  /** All generators of a graph commute pairwise. */
  lemma GeneratorsCommute(n: nat, edges: seq<Edge>, q: nat, r: nat)
    requires q < n && r < n
    ensures Commutes(Grown(n, edges, q).p, Grown(n, edges, r).p)
  {
    hide Popcount, Single;
    var a, b := Grown(n, edges, q).p, Grown(n, edges, r).p;
    OneBit(n, q, b.z); OneBit(n, r, a.z);
    var u, v := And(a.x, b.z), And(a.z, b.x);
    PopcountXor(u, v);
    SymmetricEdges(edges, q, r);
  }

  lemma SymmetricEdges(edges: seq<Edge>, q: int, r: int)
    ensures Multiplicity(edges, q, r) == Multiplicity(edges, r, q)
  {
  }

  // ---- The listed generators ----

  predicate Touch(edges: seq<Edge>, q: int, i: int) {
    (q, i) in edges || (i, q) in edges
  }

  lemma TouchMeansEdge(edges: seq<Edge>, q: int, i: int)
    ensures Touch(edges, q, i) <==> Multiplicity(edges, q, i) > 0
  {
  }

  /** The character a neighbour list puts on qubit `i`; a loop at `q` would overwrite its `X`. */
  function ListedChar(edges: seq<Edge>, q: nat, i: nat): char {
    if Touch(edges, q, i) then 'Z' else if i == q then 'X' else 'I'
  }

  function Listed(n: nat, edges: seq<Edge>, q: nat): (text: string)
    ensures |text| == n && forall i :: 0 <= i < n ==> text[i] == ListedChar(edges, q, i)
  {
    seq(n, i requires 0 <= i < n => ListedChar(edges, q, i))
  }

  /** No pair of qubits is joined by a positive even number of edges. */
  ghost predicate NoEvenBundle(n: nat, edges: seq<Edge>) {
    forall a, b :: 0 <= a < b < n ==> Multiplicity(edges, a, b) == 0 || Multiplicity(edges, a, b) % 2 == 1
  }

  /**
   The listed generators are the ones the circuit prepares exactly when no pair is joined by a positive
   even number of edges: two CZs on one pair cancel, but the list still names the neighbour.
   */
  lemma ListedIffOdd(n: nat, edges: seq<Edge>)
    requires Bonds(n, edges)
    ensures (forall q :: 0 <= q < n ==> Signed(LabelKey(Listed(n, edges, q)), false) == Grown(n, edges, q))
            <==> NoEvenBundle(n, edges)
  {
    hide Multiplicity, Touch, LabelKey;
    if NoEvenBundle(n, edges) {
      forall q | 0 <= q < n ensures Signed(LabelKey(Listed(n, edges, q)), false) == Grown(n, edges, q) {
        ListedRow(n, edges, q);
      }
    }
    if forall q :: 0 <= q < n ==> Signed(LabelKey(Listed(n, edges, q)), false) == Grown(n, edges, q) {
      forall a, b | 0 <= a < b < n ensures Multiplicity(edges, a, b) == 0 || Multiplicity(edges, a, b) % 2 == 1 {
        TouchMeansEdge(edges, a, b);
        assert LabelKey(Listed(n, edges, a)).z[b] == Grown(n, edges, a).p.z[b];
      }
    }
  }

  /** A doubled edge: the CZs cancel, and the list is wrong about qubit 0. */
  lemma DoubledEdge()
    ensures
      var edges := [(0, 1), (0, 1)];
      Bonds(2, edges) && Signed(LabelKey(Listed(2, edges, 0)), false) != Grown(2, edges, 0)
  {
    var edges: seq<Edge> := [(0, 1), (0, 1)];
    assert Multiplicity(edges, 0, 1) == 2;
    assert LabelKey(Listed(2, edges, 0)).z[1] && !Grown(2, edges, 0).p.z[1];
  }

  lemma ListedRow(n: nat, edges: seq<Edge>, q: nat)
    requires Bonds(n, edges) && NoEvenBundle(n, edges) && q < n
    ensures Signed(LabelKey(Listed(n, edges, q)), false) == Grown(n, edges, q)
  {
    hide Multiplicity, Touch, LabelKey;
    var p, g := LabelKey(Listed(n, edges, q)), Grown(n, edges, q).p;
    forall i | 0 <= i < n ensures p.x[i] == g.x[i] && p.z[i] == g.z[i] {
      TouchMeansEdge(edges, q, i);
      SymmetricEdges(edges, q, i);
      NoLoop(n, edges, q);
      if i < q {
        assert Multiplicity(edges, i, q) == 0 || Multiplicity(edges, i, q) % 2 == 1;
      }
    }
    SameString(p, g);
  }

  lemma NoLoop(n: nat, edges: seq<Edge>, q: nat)
    requires Bonds(n, edges)
    ensures !Touch(edges, q, q)
  {
  }

  /** A simple graph: each pair of qubits at most once, in one spelling. */
  ghost predicate SimpleGraph(edges: seq<Edge>) {
    forall i, j :: 0 <= i < j < |edges| ==> edges[i] != edges[j] && edges[i] != (edges[j].1, edges[j].0)
  }

  lemma {:induction false} SimpleCount(edges: seq<Edge>, a: int, b: int)
    requires SimpleGraph(edges) && a != b
    ensures Multiplicity(edges, a, b) <= 1
  {
    if |edges| > 0 {
      var k := |edges| - 1;
      var fewer, e := edges[..k], edges[k];
      SimpleCount(fewer, a, b);
      assert edges == fewer + [e];
      assert multiset(edges) == multiset(fewer) + multiset{e};
      if e == (a, b) || e == (b, a) {
        forall i | 0 <= i < k ensures fewer[i] != (a, b) && fewer[i] != (b, a) {
          assert fewer[i] == edges[i];
        }
        assert (a, b) !in fewer && (b, a) !in fewer;
      }
    }
  }

  /** For every simple graph, every order of its CZs prepares exactly the listed `+K_q`. */
  lemma SimpleGraphPrepared(n: nat, edges: seq<Edge>, order: seq<Edge>, q: nat)
    requires Bonds(n, edges) && SimpleGraph(edges) && Bonds(n, order) && multiset(order) == multiset(edges) && q < n
    ensures GatesOn(n, Preparation(n, order))
    ensures Push(Preparation(n, order), ZeroGenerator(n, q)) == Signed(LabelKey(Listed(n, edges, q)), false)
  {
    hide Push, Preparation, Multiplicity, LabelKey, SimpleGraph;
    Prepared(n, edges, order, q);
    forall a, b | 0 <= a < b < n ensures Multiplicity(edges, a, b) == 0 || Multiplicity(edges, a, b) % 2 == 1 {
      SimpleCount(edges, a, b);
    }
    ListedIffOdd(n, edges);
  }
}
