/**
 The echo half of the Loschmidt circuit: forward layers followed by the inverse of each, and when the two
 cancel.
 */
module EchoCircuit {

  datatype Option<T> = None | Some(value: T)

  datatype Op = Op(name: string, angle: Option<real>, qubits: seq<nat>)

  /** The inverse table; other names are not in it. */
  function InverseName(name: string): Option<string> {
    if name == "rx" then Some("rx")
    else if name == "rz" then Some("rz")
    else if name == "cz" then Some("cz")
    else if name == "s" then Some("sdg")
    else if name == "sdg" then Some("s")
    else if name == "sx" then Some("sxdg")
    else if name == "sxdg" then Some("sx")
    else None
  }

  predicate Known(op: Op) {
    InverseName(op.name).Some?
  }

  lemma KnownNames(op: Op)
    ensures Known(op) <==> op.name in {"rx", "rz", "cz", "s", "sdg", "sx", "sxdg"}
  {
  }

  predicate AllKnown(ops: seq<Op>) {
    forall i :: 0 <= i < |ops| ==> Known(ops[i])
  }

  function Negated(angle: Option<real>): Option<real> {
    if angle.None? then None else Some(-angle.value)
  }

  function InverseOp(op: Op): (r: Op)
    requires Known(op)
    ensures Known(r)
  {
    Op(InverseName(op.name).value, Negated(op.angle), op.qubits)
  }

  lemma InverseOpTwice(op: Op)
    requires Known(op)
    ensures InverseOp(InverseOp(op)) == op
  {
  }

  /** `invert`: the inverse of each op, in reverse order. */
  function Invert(ops: seq<Op>): (r: seq<Op>)
    requires AllKnown(ops)
    ensures |r| == |ops| && AllKnown(r)
  {
    if |ops| == 0 then [] else Invert(ops[1..]) + [InverseOp(ops[0])]
  }

  /** `invert` as the source runs it, from the last op backwards: a name missing from the table raises. */
  method InvertOps(ops: seq<Op>) returns (r: Option<seq<Op>>)
    ensures r.Some? <==> forall i :: 0 <= i < |ops| ==> ops[i].name in {"rx", "rz", "cz", "s", "sdg", "sx", "sxdg"}
    ensures r.Some? ==> AllKnown(ops) && r.value == Invert(ops)
  {
    hide InverseOp, InverseName;
    forall i | 0 <= i < |ops| ensures Known(ops[i]) <==> ops[i].name in {"rx", "rz", "cz", "s", "sdg", "sx", "sxdg"} {
      KnownNames(ops[i]);
    }
    var out: seq<Op> := [];
    for i := |ops| downto 0
      invariant AllKnown(ops[i..]) && out == Invert(ops[i..])
    {
      var op := ops[i];
      if InverseName(op.name).None? {
        return None;
      }
      assert ops[i..] == [op] + ops[i + 1..];
      assert ops[i..][1..] == ops[i + 1..];
      out := out + [InverseOp(op)];
    }
    assert ops[0..] == ops;
    return Some(out);
  }

  lemma {:induction false} InvertConcat(a: seq<Op>, b: seq<Op>)
    requires AllKnown(a) && AllKnown(b)
    ensures AllKnown(a + b) && Invert(a + b) == Invert(b) + Invert(a)
  {
    hide InverseOp, Known;
    if |a| == 0 {
      assert a + b == b;
    } else {
      assert (a + b)[1..] == a[1..] + b;
      InvertConcat(a[1..], b);
    }
  }

  lemma InvertOne(op: Op)
    requires Known(op)
    ensures Invert([op]) == [InverseOp(op)]
  {
    hide InverseOp, Known;
    assert [op][1..] == [];
  }

  /** `invert` is an involution. */
  lemma {:induction false} InvertInvert(ops: seq<Op>)
    requires AllKnown(ops)
    ensures Invert(Invert(ops)) == ops
  {
    hide InverseOp, Known;
    if |ops| > 0 {
      InvertInvert(ops[1..]);
      KnownInverse(ops[0]);
      InvertConcat(Invert(ops[1..]), [InverseOp(ops[0])]);
      InvertOne(InverseOp(ops[0]));
      InverseOpTwice(ops[0]);
    }
  }

  lemma KnownInverse(op: Op)
    requires Known(op)
    ensures Known(InverseOp(op))
  {
  }

  // ---- Interpretations ----

  /** Run ops in time order. */
  function Execute<S>(gate: Op -> S -> S, ops: seq<Op>, s: S): S {
    if |ops| == 0 then s else Execute(gate, ops[1..], gate(ops[0])(s))
  }

  /** Every op of a list is undone by its table inverse with negated angle. */
  ghost predicate Undone<S(!new)>(gate: Op -> S -> S, ops: seq<Op>)
    requires AllKnown(ops)
  {
    forall op: Op, s: S :: op in ops ==> gate(InverseOp(op))(gate(op)(s)) == s
  }

  lemma {:induction false} ExecuteConcat<S>(gate: Op -> S -> S, a: seq<Op>, b: seq<Op>, s: S)
    ensures Execute(gate, a + b, s) == Execute(gate, b, Execute(gate, a, s))
    decreases |a|
  {
    if |a| == 0 {
      assert a + b == b;
    } else {
      assert (a + b)[1..] == a[1..] + b;
      ExecuteConcat(gate, a[1..], b, gate(a[0])(s));
    }
  }

  /** Running a circuit and then its inverse changes nothing. */
  lemma {:induction false} InvertUndoes<S(!new)>(gate: Op -> S -> S, ops: seq<Op>, s: S)
    requires AllKnown(ops) && Undone(gate, ops)
    ensures Execute(gate, Invert(ops), Execute(gate, ops, s)) == s
    decreases |ops|
  {
    hide InverseOp, Known;
    if |ops| > 0 {
      var op, rest := ops[0], ops[1..];
      var s' := gate(op)(s);
      InvertUndoes(gate, rest, s');
      assert ops == [op] + rest;
      InvertConcat([op], rest);
      InvertOne(op);
      ExecuteConcat(gate, Invert(rest), [InverseOp(op)], Execute(gate, ops, s));
      assert Execute(gate, [InverseOp(op)], s') == gate(InverseOp(op))(s') by {
        assert [InverseOp(op)][1..] == [];
      }
    }
  }

  // ---- Gates as turns ----

  function Turn(axis: string, angle: real, qubits: seq<nat>): Op {
    Op(axis, Some(angle), qubits)
  }

  function Fixed(name: string, qubits: seq<nat>): Op {
    Op(name, None, qubits)
  }

  /** Two turns about one axis of one qubit add their angles. */
  ghost predicate Adds<S(!new)>(gate: Op -> S -> S, axis: string) {
    forall a: real, b: real, q: seq<nat>, s: S :: AddsAt(gate, axis, a, b, q, s)
  }

  ghost predicate AddsAt<S(!new)>(gate: Op -> S -> S, axis: string, a: real, b: real, q: seq<nat>, s: S) {
    gate(Turn(axis, b, q))(gate(Turn(axis, a, q))(s)) == gate(Turn(axis, a + b, q))(s)
  }

  ghost predicate NoTurn<S(!new)>(gate: Op -> S -> S, axis: string) {
    forall q: seq<nat>, s: S :: gate(Turn(axis, 0.0, q))(s) == s
  }

  ghost predicate IsTurn<S(!new)>(gate: Op -> S -> S, name: string, axis: string, angle: real) {
    forall q: seq<nat>, s: S :: gate(Fixed(name, q))(s) == gate(Turn(axis, angle, q))(s)
  }

  ghost predicate SelfInverse<S(!new)>(gate: Op -> S -> S, name: string) {
    forall q: seq<nat>, s: S :: gate(Fixed(name, q))(gate(Fixed(name, q))(s)) == s
  }

  /**
   What the gate names stand for: `rx` and `rz` are turns, `s` and `sx` turns by `h` (a quarter turn) about
   the two axes, `sdg` and `sxdg` turns by `-h`, and `cz` undoes itself.
   */
  ghost predicate Physical<S(!new)>(gate: Op -> S -> S, h: real) {
    && Adds(gate, "rx") && NoTurn(gate, "rx") && Adds(gate, "rz") && NoTurn(gate, "rz")
    && IsTurn(gate, "s", "rz", h) && IsTurn(gate, "sdg", "rz", -h)
    && IsTurn(gate, "sx", "rx", h) && IsTurn(gate, "sxdg", "rx", -h)
    && SelfInverse(gate, "cz")
  }

  /** Turns carry an angle, the other gates none. */
  predicate Proper(op: Op) {
    Known(op) && (op.angle.Some? <==> op.name == "rx" || op.name == "rz")
  }

  lemma TurnBack<S(!new)>(gate: Op -> S -> S, axis: string, a: real, q: seq<nat>, s: S)
    requires Adds(gate, axis) && NoTurn(gate, axis)
    ensures gate(Turn(axis, -a, q))(gate(Turn(axis, a, q))(s)) == s
  {
    assert AddsAt(gate, axis, a, -a, q, s);
    assert a + -a == 0.0;
  }

  lemma FixedBack<S(!new)>(gate: Op -> S -> S, name: string, inverse: string, axis: string, a: real, q: seq<nat>, s: S)
    requires Adds(gate, axis) && NoTurn(gate, axis) && IsTurn(gate, name, axis, a) && IsTurn(gate, inverse, axis, -a)
    ensures gate(Fixed(inverse, q))(gate(Fixed(name, q))(s)) == s
  {
    hide Adds, NoTurn;
    TurnBack(gate, axis, a, q, s);
  }

  /** The inverse table is right: in every such interpretation each op is undone by its entry. */
  lemma TableUndoes<S(!new)>(gate: Op -> S -> S, h: real, op: Op, s: S)
    requires Physical(gate, h) && Proper(op)
    ensures gate(InverseOp(op))(gate(op)(s)) == s
  {
    hide Adds, NoTurn, IsTurn, SelfInverse;
    var q := op.qubits;
    if op.name == "rx" || op.name == "rz" {
      TurnBack(gate, op.name, op.angle.value, q, s);
      assert op == Turn(op.name, op.angle.value, q) && InverseOp(op) == Turn(op.name, -op.angle.value, q);
    } else if op.name == "cz" {
      CzBack(gate, q, s);
      assert op == Fixed("cz", q) && InverseOp(op) == Fixed("cz", q);
    } else {
      assert op == Fixed(op.name, q) && -(-h) == h;
      if op.name == "s" {
        FixedBack(gate, "s", "sdg", "rz", h, q, s);
        assert InverseOp(op) == Fixed("sdg", q);
      } else if op.name == "sdg" {
        FixedBack(gate, "sdg", "s", "rz", -h, q, s);
        assert InverseOp(op) == Fixed("s", q);
      } else if op.name == "sx" {
        FixedBack(gate, "sx", "sxdg", "rx", h, q, s);
        assert InverseOp(op) == Fixed("sxdg", q);
      } else {
        FixedBack(gate, "sxdg", "sx", "rx", -h, q, s);
        assert InverseOp(op) == Fixed("sx", q);
      }
    }
  }

  lemma CzBack<S(!new)>(gate: Op -> S -> S, q: seq<nat>, s: S)
    requires SelfInverse(gate, "cz")
    ensures gate(Fixed("cz", q))(gate(Fixed("cz", q))(s)) == s
  {
  }

  lemma ProperUndone<S(!new)>(gate: Op -> S -> S, h: real, ops: seq<Op>)
    requires Physical(gate, h) && forall i :: 0 <= i < |ops| ==> Proper(ops[i])
    ensures AllKnown(ops) && Undone(gate, ops)
  {
    hide Physical, InverseOp;
    forall op: Op, s: S | op in ops ensures gate(InverseOp(op))(gate(op)(s)) == s {
      TableUndoes(gate, h, op, s);
    }
  }

  // ---- The echo half ----

  /** `ops * L`; a negative count gives the empty list. */
  function Repeat(ops: seq<Op>, l: int): seq<Op>
    decreases l
  {
    if l <= 0 then [] else ops + Repeat(ops, l - 1)
  }

  /** An `rx` on a scattering qubit turns `eta` less. */
  function Scattered(op: Op, scattering: set<nat>, eta: real): Op
    requires op.name == "rx" ==> op.angle.Some? && |op.qubits| > 0
  {
    if op.name == "rx" && op.qubits[0] in scattering then Op(op.name, Some(op.angle.value - eta), op.qubits) else op
  }

  /** Every `rx` of a layer carries an angle and a qubit. */
  predicate WellFormed(base: seq<Op>) {
    AllKnown(base) && forall i :: 0 <= i < |base| && base[i].name == "rx" ==> base[i].angle.Some? && |base[i].qubits| > 0
  }

  function ScatteredLayer(base: seq<Op>, scattering: set<nat>, eta: real): (r: seq<Op>)
    requires WellFormed(base)
    ensures |r| == |base| && forall i :: 0 <= i < |base| ==> r[i] == Scattered(base[i], scattering, eta)
  {
    seq(|base|, i requires 0 <= i < |base| => Scattered(base[i], scattering, eta))
  }

  /** `echo_half`: the scattered layer repeated, then as many inverses of the plain one. */
  function EchoHalf(base: seq<Op>, scattering: set<nat>, l: int, eta: real): (r: seq<Op>)
    requires WellFormed(base)
    ensures AllKnown(r)
  {
    HalvesKnown(base, scattering, l, eta);
    Repeat(ScatteredLayer(base, scattering, eta), l) + Repeat(Invert(base), l)
  }

  lemma HalvesKnown(base: seq<Op>, scattering: set<nat>, l: int, eta: real)
    requires WellFormed(base)
    ensures AllKnown(Repeat(ScatteredLayer(base, scattering, eta), l)) && AllKnown(Repeat(Invert(base), l))
  {
    var layer := ScatteredLayer(base, scattering, eta);
    forall i | 0 <= i < |layer| ensures Known(layer[i]) {
      assert layer[i].name == base[i].name;
    }
    hide Known;
    RepeatKnown(layer, l);
    RepeatKnown(Invert(base), l);
  }

  lemma {:induction false} RepeatKnown(ops: seq<Op>, l: int)
    requires AllKnown(ops)
    ensures AllKnown(Repeat(ops, l))
    decreases l
  {
    hide Known;
    if l > 0 {
      RepeatKnown(ops, l - 1);
    }
  }

  lemma {:induction false} RepeatSnoc(ops: seq<Op>, l: int)
    requires l > 0
    ensures Repeat(ops, l) == Repeat(ops, l - 1) + ops
    decreases l
  {
    if l == 1 {
      assert Repeat(ops, 0) == [];
      assert Repeat(ops, 1) == ops + [];
    } else {
      RepeatSnoc(ops, l - 1);
      assert Repeat(ops, l) == ops + (Repeat(ops, l - 2) + ops);
      assert Repeat(ops, l - 1) == ops + Repeat(ops, l - 2);
    }
  }

  /** The inverse of `L` layers is `L` inverse layers. */
  lemma {:induction false} InvertRepeat(ops: seq<Op>, l: int)
    requires AllKnown(ops)
    ensures AllKnown(Repeat(ops, l)) && Invert(Repeat(ops, l)) == Repeat(Invert(ops), l)
    decreases l
  {
    hide InverseOp, Known;
    RepeatKnown(ops, l);
    if l > 0 {
      RepeatKnown(ops, l - 1);
      InvertRepeat(ops, l - 1);
      InvertConcat(ops, Repeat(ops, l - 1));
      RepeatSnoc(Invert(ops), l);
    }
  }

  lemma NoScattering(base: seq<Op>, scattering: set<nat>)
    requires WellFormed(base)
    ensures ScatteredLayer(base, scattering, 0.0) == base
  {
    var r := ScatteredLayer(base, scattering, 0.0);
    forall i | 0 <= i < |base| ensures r[i] == base[i] {
    }
  }

  lemma {:induction false} InRepeat(ops: seq<Op>, l: int, op: Op)
    requires op in Repeat(ops, l)
    ensures op in ops
    decreases l
  {
    if l > 0 && op !in ops {
      InRepeat(ops, l - 1, op);
    }
  }

  /** The plain layers followed by their inverses are the identity. */
  lemma PlainEcho<S(!new)>(gate: Op -> S -> S, base: seq<Op>, l: int, s: S)
    requires AllKnown(base) && Undone(gate, base)
    ensures Execute(gate, Repeat(Invert(base), l), Execute(gate, Repeat(base, l), s)) == s
  {
    hide Known, InverseOp, Execute;
    var forward := Repeat(base, l);
    InvertRepeat(base, l);
    forall op | op in forward ensures op in base {
      InRepeat(base, l, op);
    }
    InvertUndoes(gate, forward, s);
  }

  /** Without scattering the echo half composes to the identity, for every layer, every `L` and every interpretation. */
  lemma EchoIsIdentity<S(!new)>(gate: Op -> S -> S, base: seq<Op>, scattering: set<nat>, l: int, s: S)
    requires WellFormed(base) && Undone(gate, base)
    ensures Execute(gate, EchoHalf(base, scattering, l, 0.0), s) == s
  {
    hide Known, InverseOp, Undone, Execute, Repeat;
    NoScattering(base, scattering);
    ExecuteConcat(gate, Repeat(base, l), Repeat(Invert(base), l), s);
    PlainEcho(gate, base, l, s);
  }

  /** With any scattering, the inverse circuit still undoes the echo half. */
  lemma EchoReversible<S(!new)>(gate: Op -> S -> S, base: seq<Op>, scattering: set<nat>, l: int, eta: real, s: S)
    requires WellFormed(base) && Undone(gate, EchoHalf(base, scattering, l, eta))
    ensures Execute(gate, Invert(EchoHalf(base, scattering, l, eta)), Execute(gate, EchoHalf(base, scattering, l, eta), s)) == s
  {
    hide InverseOp, Undone, Execute;
    InvertUndoes(gate, EchoHalf(base, scattering, l, eta), s);
  }

  // ---- What the scattering does ----

  /** The position of entry `i` in block `t` of blocks of size `m`. */
  function At(m: nat, t: nat, i: nat): nat {
    t * m + i
  }

  lemma {:induction false} RepeatAt(ops: seq<Op>, l: int, t: nat, i: nat)
    requires t < l && i < |ops|
    ensures At(|ops|, t, i) < |Repeat(ops, l)| && Repeat(ops, l)[At(|ops|, t, i)] == ops[i]
    decreases l
  {
    if t > 0 {
      RepeatAt(ops, l - 1, t - 1, i);
      AtStep(|ops|, t, i);
    }
  }

  lemma AtStep(m: nat, t: nat, i: nat)
    requires t > 0
    ensures At(m, t, i) == m + At(m, t - 1, i)
  {
  }

  lemma {:induction false} RepeatSize(ops: seq<Op>, l: nat)
    ensures |Repeat(ops, l)| == At(|ops|, l, 0)
  {
    if l > 0 {
      RepeatSize(ops, l - 1);
      AtStep(|ops|, l, 0);
    }
  }

  lemma {:induction false} InvertAt(ops: seq<Op>, i: nat)
    requires AllKnown(ops) && i < |ops|
    ensures Invert(ops)[|ops| - 1 - i] == InverseOp(ops[i])
  {
    hide InverseOp, Known;
    if i > 0 {
      InvertAt(ops[1..], i - 1);
    }
  }

  /**
   The echo half, position by position: op `i` of forward layer `t` is op `i` of the base layer, with `eta`
   taken off its angle when it is an `rx` on a scattering qubit; op `i` of the base layer comes back negated,
   under its table name, at the mirrored place of every inverse layer.
   */
  lemma EchoAt(base: seq<Op>, scattering: set<nat>, l: nat, eta: real, t: nat, i: nat)
    requires WellFormed(base) && t < l && i < |base|
    ensures
      var half, m, op := EchoHalf(base, scattering, l, eta), |base|, base[i];
      && |half| == 2 * (l * m)
      && t * m + i < l * m
      && l * m + t * m + (m - 1 - i) < |half|
      && half[t * m + i] == (if op.name == "rx" && op.qubits[0] in scattering then Op("rx", Some(op.angle.value - eta), op.qubits) else op)
      && half[l * m + t * m + (m - 1 - i)] == Op(InverseName(op.name).value, Negated(op.angle), op.qubits)
  {
    hide Known, InverseName;
    var m := |base|;
    EchoPlaces(base, scattering, l, eta, t, i);
    assert At(m, l, 0) == l * m && At(m, t, i) == t * m + i && At(m, t, m - 1 - i) == t * m + (m - 1 - i);
  }

  lemma EchoPlaces(base: seq<Op>, scattering: set<nat>, l: nat, eta: real, t: nat, i: nat)
    requires WellFormed(base) && t < l && i < |base|
    ensures
      var half, m := EchoHalf(base, scattering, l, eta), |base|;
      var k := At(m, l, 0);
      && |half| == 2 * k && At(m, t, i) < k && At(m, t, m - 1 - i) < k
      && half[At(m, t, i)] == Scattered(base[i], scattering, eta)
      && half[k + At(m, t, m - 1 - i)] == InverseOp(base[i])
  {
    hide Known, At, Repeat, Scattered, InverseOp;
    var layer, back, m := ScatteredLayer(base, scattering, eta), Invert(base), |base|;
    RepeatSize(layer, l); RepeatSize(back, l);
    RepeatAt(layer, l, t, i); RepeatAt(back, l, t, m - 1 - i);
    InvertAt(base, i);
  }

  /** After every `rx` on a scattering qubit, a turn by `eta`. */
  function Corrected(ops: seq<Op>, scattering: set<nat>, eta: real): seq<Op>
    requires WellFormed(ops)
  {
    if |ops| == 0 then [] else Restoring(ops[0], scattering, eta) + Corrected(ops[1..], scattering, eta)
  }

  function Restoring(op: Op, scattering: set<nat>, eta: real): seq<Op>
    requires op.name == "rx" ==> |op.qubits| > 0
  {
    if op.name == "rx" && op.qubits[0] in scattering then [op, Turn("rx", eta, op.qubits)] else [op]
  }

  lemma {:induction false} CorrectedConcat(a: seq<Op>, b: seq<Op>, scattering: set<nat>, eta: real)
    requires WellFormed(a) && WellFormed(b)
    ensures WellFormed(a + b)
    ensures Corrected(a + b, scattering, eta) == Corrected(a, scattering, eta) + Corrected(b, scattering, eta)
  {
    hide Known, Restoring;
    if |a| == 0 {
      assert a + b == b;
    } else {
      assert (a + b)[1..] == a[1..] + b;
      CorrectedConcat(a[1..], b, scattering, eta);
    }
  }

  lemma ScatteredWell(base: seq<Op>, scattering: set<nat>, eta: real)
    requires WellFormed(base)
    ensures WellFormed(ScatteredLayer(base, scattering, eta))
  {
    var layer := ScatteredLayer(base, scattering, eta);
    forall i | 0 <= i < |layer| ensures Known(layer[i]) && (layer[i].name == "rx" ==> layer[i].angle.Some? && |layer[i].qubits| > 0) {
      assert layer[i].name == base[i].name && layer[i].qubits == base[i].qubits;
    }
  }

  lemma ExecuteOne<S>(gate: Op -> S -> S, op: Op, s: S)
    ensures Execute(gate, [op], s) == gate(op)(s)
  {
    assert [op][1..] == [];
  }

  lemma ExecuteTwo<S>(gate: Op -> S -> S, a: Op, b: Op, s: S)
    ensures Execute(gate, [a, b], s) == gate(b)(gate(a)(s))
  {
    assert [a, b][1..] == [b];
    ExecuteOne(gate, b, gate(a)(s));
  }

  /** A scattered `rx` followed by a turn by `eta` acts as the plain one. */
  lemma RestoredOp<S(!new)>(gate: Op -> S -> S, op: Op, scattering: set<nat>, eta: real, s: S)
    requires Adds(gate, "rx") && op.name == "rx" && op.angle.Some? && |op.qubits| > 0 && op.qubits[0] in scattering
    ensures gate(Turn("rx", eta, op.qubits))(gate(Scattered(op, scattering, eta))(s)) == gate(op)(s)
  {
    var a := op.angle.value - eta;
    assert Scattered(op, scattering, eta) == Turn("rx", a, op.qubits);
    assert AddsAt(gate, "rx", a, eta, op.qubits, s);
    assert op == Turn("rx", a + eta, op.qubits);
  }

  lemma {:induction false} RestoredLayer<S(!new)>(gate: Op -> S -> S, base: seq<Op>, scattering: set<nat>, eta: real, s: S)
    requires WellFormed(base) && Adds(gate, "rx")
    ensures WellFormed(ScatteredLayer(base, scattering, eta))
    ensures Execute(gate, Corrected(ScatteredLayer(base, scattering, eta), scattering, eta), s) == Execute(gate, base, s)
    decreases |base|
  {
    ScatteredWell(base, scattering, eta);
    if |base| > 0 {
      hide Known, Adds, Scattered, WellFormed;
      RestoredStep(gate, base, scattering, eta, s);
      RestoredLayer(gate, base[1..], scattering, eta, gate(base[0])(s));
    }
  }

  lemma RestoredStep<S(!new)>(gate: Op -> S -> S, base: seq<Op>, scattering: set<nat>, eta: real, s: S)
    requires WellFormed(base) && Adds(gate, "rx") && |base| > 0
    ensures WellFormed(ScatteredLayer(base, scattering, eta)) && WellFormed(base[1..])
    ensures WellFormed(ScatteredLayer(base[1..], scattering, eta))
    ensures Execute(gate, Corrected(ScatteredLayer(base, scattering, eta), scattering, eta), s)
         == Execute(gate, Corrected(ScatteredLayer(base[1..], scattering, eta), scattering, eta), gate(base[0])(s))
  {
    hide Adds, Execute, Known;
    ScatteredWell(base, scattering, eta); ScatteredWell(base[1..], scattering, eta);
    var layer, rest := ScatteredLayer(base, scattering, eta), ScatteredLayer(base[1..], scattering, eta);
    assert layer[1..] == rest;
    var op, turned := base[0], layer[0];
    var tail := Corrected(rest, scattering, eta);
    if op.name == "rx" && op.qubits[0] in scattering {
      var back := Turn("rx", eta, op.qubits);
      ExecuteConcat(gate, [turned, back], tail, s);
      ExecuteTwo(gate, turned, back, s);
      RestoredOp(gate, op, scattering, eta, s);
    } else {
      ExecuteConcat(gate, [op], tail, s);
      ExecuteOne(gate, op, s);
    }
  }

  lemma {:induction false} RestoredForward<S(!new)>(gate: Op -> S -> S, base: seq<Op>, scattering: set<nat>, l: int, eta: real, s: S)
    requires WellFormed(base) && Adds(gate, "rx")
    ensures WellFormed(Repeat(ScatteredLayer(base, scattering, eta), l))
    ensures Execute(gate, Corrected(Repeat(ScatteredLayer(base, scattering, eta), l), scattering, eta), s) == Execute(gate, Repeat(base, l), s)
    decreases l
  {
    hide Adds, Execute, Known;
    if l > 0 {
      var layer := ScatteredLayer(base, scattering, eta);
      ScatteredWell(base, scattering, eta);
      RestoredLayer(gate, base, scattering, eta, s);
      var s' := Execute(gate, base, s);
      RestoredForward(gate, base, scattering, l - 1, eta, s');
      CorrectedConcat(layer, Repeat(layer, l - 1), scattering, eta);
      ExecuteConcat(gate, Corrected(layer, scattering, eta), Corrected(Repeat(layer, l - 1), scattering, eta), s);
      ExecuteConcat(gate, base, Repeat(base, l - 1), s);
    }
  }

  /**
   At every `eta` the scattering is all that keeps the echo half from the identity: with `eta` restored after
   each scattered `rx` of its forward half, the whole composes to the identity, in every interpretation where
   `rx` turns add up and each op of the layer is undone by its table inverse.
   */
  lemma RestoredEcho<S(!new)>(gate: Op -> S -> S, base: seq<Op>, scattering: set<nat>, l: int, eta: real, s: S)
    requires WellFormed(base) && Adds(gate, "rx") && Undone(gate, base)
    ensures
      var half := EchoHalf(base, scattering, l, eta);
      var m := |half| / 2;
      WellFormed(half[..m]) && Execute(gate, Corrected(half[..m], scattering, eta) + half[m..], s) == s
  {
    hide Adds, Execute, Undone, Known, Corrected;
    var layer := ScatteredLayer(base, scattering, eta);
    var forward, back := Repeat(layer, l), Repeat(Invert(base), l);
    SameSize(layer, Invert(base), l);
    var half := EchoHalf(base, scattering, l, eta);
    assert half[..|forward|] == forward && half[|forward|..] == back;
    RestoredForward(gate, base, scattering, l, eta, s);
    ExecuteConcat(gate, Corrected(forward, scattering, eta), back, s);
    PlainEcho(gate, base, l, s);
  }

  lemma {:induction false} SameSize(a: seq<Op>, b: seq<Op>, l: int)
    requires |a| == |b|
    ensures |Repeat(a, l)| == |Repeat(b, l)|
    decreases l
  {
    if l > 0 {
      SameSize(a, b, l - 1);
    }
  }

  /** For the gates the names stand for, both laws hold at every `eta`. */
  lemma PhysicalEcho<S(!new)>(gate: Op -> S -> S, h: real, base: seq<Op>, scattering: set<nat>, l: int, eta: real, s: S)
    requires Physical(gate, h) && WellFormed(base) && forall i :: 0 <= i < |base| ==> Proper(base[i])
    ensures
      var half := EchoHalf(base, scattering, l, eta);
      var m := |half| / 2;
      && WellFormed(half[..m])
      && Execute(gate, Corrected(half[..m], scattering, eta) + half[m..], s) == s
      && Execute(gate, Invert(half), Execute(gate, half, s)) == s
  {
    var half := EchoHalf(base, scattering, l, eta);
    forall i | 0 <= i < |half| ensures Proper(half[i]) {
      EchoProper(base, scattering, l, eta, half[i]);
    }
    hide Execute, EchoHalf, Corrected, Proper;
    ProperUndone(gate, h, base);
    ProperUndone(gate, h, half);
    RestoredEcho(gate, base, scattering, l, eta, s);
    EchoReversible(gate, base, scattering, l, eta, s);
  }

  lemma EchoProper(base: seq<Op>, scattering: set<nat>, l: int, eta: real, op: Op)
    requires WellFormed(base) && op in EchoHalf(base, scattering, l, eta) && forall i :: 0 <= i < |base| ==> Proper(base[i])
    ensures Proper(op)
  {
    var layer := ScatteredLayer(base, scattering, eta);
    hide InverseName;
    if op in Repeat(layer, l) {
      InRepeat(layer, l, op);
      var i :| 0 <= i < |layer| && layer[i] == op;
      ProperScattered(base[i], scattering, eta);
    } else {
      InRepeat(Invert(base), l, op);
      var i :| 0 <= i < |base| && Invert(base)[i] == op;
      InvertAt(base, |base| - 1 - i);
      ProperInverse(base[|base| - 1 - i]);
    }
  }

  lemma ProperScattered(op: Op, scattering: set<nat>, eta: real)
    requires Proper(op) && (op.name == "rx" ==> |op.qubits| > 0)
    ensures Proper(Scattered(op, scattering, eta))
  {
  }

  lemma ProperInverse(op: Op)
    requires Proper(op)
    ensures Proper(InverseOp(op))
  {
  }
}
