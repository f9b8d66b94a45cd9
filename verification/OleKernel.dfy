/**
 The kernel `R[P, Q]` of the operator Loschmidt echo: how `V^dagger . V` mixes two Pauli strings,
 for `V` a product of single-qubit rotations on a set of probe sites.
 */
module OleKernel {
  import opened Complexes
  import opened Paulis

  /** `_halves`: the bits that decide where a string meets the probe, and the bits the probe then toggles. */
  datatype Halves = Halves(sel: Row, flip: Row) {
    predicate On(n: nat) {
      |sel| == n && |flip| == n
    }
  }

  function HalvesOf(zAxis: bool, p: Pauli): Halves {
    if zAxis then Halves(p.x, p.z) else Halves(p.z, p.x)
  }

  /** The angles `cos(2 delta)`, `sin(2 delta)` with the axis of the rotation. */
  datatype Probe = Probe(zAxis: bool, cos: real, sin: real)

  /** The factor of one qubit; `m` marks a probe site. */
  function SiteFactor(v: Probe, m: bool, s: bool, f: bool, s': bool, f': bool): real {
    if s != s' then 0.0
    else if !m || !s then (if f == f' then 1.0 else 0.0)
    else if f == f' then v.cos
    else if (if v.zAxis then f else f') then -v.sin
    else v.sin
  }

  /** The naive kernel: the product of the per-qubit factors. */
  function Kernel(v: Probe, mask: Row, a: Halves, b: Halves): real
    requires a.On(|mask|) && b.On(|mask|)
    decreases |mask|
  {
    if |mask| == 0 then 1.0
    else Prod(SiteFactor(v, mask[0], a.sel[0], a.flip[0], b.sel[0], b.flip[0]),
              Kernel(v, mask[1..], TailOf(a), TailOf(b)))
  }

  function TailOf(a: Halves): (r: Halves)
    requires a.On(|a.sel|) && |a.sel| > 0
    ensures r.On(|a.sel| - 1)
  {
    Halves(a.sel[1..], a.flip[1..])
  }

  function AndNot(a: Row, b: Row): (r: Row)
    requires |a| == |b|
    ensures |r| == |a| && forall i :: 0 <= i < |a| ==> r[i] == (a[i] && !b[i])
  {
    seq(|a|, i requires 0 <= i < |a| => a[i] && !b[i])
  }

  /** The probe sites a string anticommutes with. */
  function Moving(mask: Row, a: Halves): (r: Row)
    requires a.On(|mask|)
    ensures |r| == |mask|
  {
    And(a.sel, mask)
  }

  /** One class: equal selectors, and equal toggle bits everywhere the probe cannot move them. */
  predicate SameClass(mask: Row, a: Halves, b: Halves)
    requires a.On(|mask|) && b.On(|mask|)
  {
    a.sel == b.sel && AndNot(a.flip, Moving(mask, a)) == AndNot(b.flip, Moving(mask, b))
  }

  function Pow(b: real, k: nat): real {
    if k == 0 then 1.0 else Prod(b, Pow(b, k - 1))
  }

  /** The entry the pair loop computes from popcounts and power tables. */
  function ClassEntry(v: Probe, k: Row, f: Row, f': Row): real
    requires |k| == |f| == |f'|
    requires Popcount(Xor(f, f')) <= Popcount(k)
  {
    var d := Xor(f, f');
    var flipped := Popcount(d);
    var negative := Popcount(And(if v.zAxis then f else f', d)) % 2 == 1;
    Signed(negative, Prod(Pow(v.cos, Popcount(k) - flipped), Pow(v.sin, flipped)))
  }

  function Signed(negative: bool, magnitude: real): real {
    if negative then -magnitude else magnitude
  }

  lemma AndNotTail(a: Row, b: Row)
    requires |a| == |b| > 0
    ensures AndNot(a, b)[1..] == AndNot(a[1..], b[1..])
  {
  }

  lemma {:induction false} PopcountAtMost(a: Row, b: Row)
    requires |a| == |b| && forall i :: 0 <= i < |a| && a[i] ==> b[i]
    ensures Popcount(a) <= Popcount(b)
  {
    if |a| > 0 {
      PopcountAtMost(a[1..], b[1..]);
    }
  }

  lemma FlippedBound(k: Row, f: Row, f': Row)
    requires |k| == |f| == |f'|
    ensures Popcount(Xor(And(f, k), And(f', k))) <= Popcount(k)
  {
    PopcountAtMost(Xor(And(f, k), And(f', k)), k);
  }

  /** Off a class the kernel vanishes. */
  lemma {:induction false} KernelOffClass(v: Probe, mask: Row, a: Halves, b: Halves)
    requires a.On(|mask|) && b.On(|mask|) && !SameClass(mask, a, b)
    ensures Kernel(v, mask, a, b) == 0.0
    decreases |mask|
  {
    hide Prod, SameClass;
    if |mask| == 0 {
      EmptyClass(mask, a, b);
    } else {
      ClassStep(mask, a, b);
      KernelStep(v, mask, a, b);
      ProdUnits(Kernel(v, mask[1..], TailOf(a), TailOf(b)), 0.0);
      ProdUnits(SiteFactor(v, mask[0], a.sel[0], a.flip[0], b.sel[0], b.flip[0]), 0.0);
      if SameClass(mask[1..], TailOf(a), TailOf(b)) {
        assert SiteFactor(v, mask[0], a.sel[0], a.flip[0], b.sel[0], b.flip[0]) == 0.0;
      } else {
        KernelOffClass(v, mask[1..], TailOf(a), TailOf(b));
      }
    }
  }

  lemma EmptyClass(mask: Row, a: Halves, b: Halves)
    requires a.On(|mask|) && b.On(|mask|) && |mask| == 0
    ensures SameClass(mask, a, b)
  {
    assert a.sel == b.sel && AndNot(a.flip, Moving(mask, a)) == AndNot(b.flip, Moving(mask, b));
  }

  /** Class membership is decided qubit by qubit. */
  lemma ClassStep(mask: Row, a: Halves, b: Halves)
    requires a.On(|mask|) && b.On(|mask|) && |mask| > 0
    ensures SameClass(mask, a, b) <==>
              a.sel[0] == b.sel[0] && ((a.sel[0] && mask[0]) || a.flip[0] == b.flip[0])
              && SameClass(mask[1..], TailOf(a), TailOf(b))
  {
    var x, y := AndNot(a.flip, Moving(mask, a)), AndNot(b.flip, Moving(mask, b));
    AndNotTail(a.flip, Moving(mask, a)); AndNotTail(b.flip, Moving(mask, b));
    RowTails(a.sel, mask); RowTails(b.sel, mask);
    HeadTail(a.sel, b.sel);
    HeadTail(x, y);
  }

  lemma HeadTail(a: Row, b: Row)
    requires |a| == |b| > 0
    ensures a == b <==> a[0] == b[0] && a[1..] == b[1..]
  {
    assert a == [a[0]] + a[1..];
    assert b == [b[0]] + b[1..];
  }

  /** In a class the product of the site factors is the tabulated `+-cos^(k - f) sin^f`. */
  lemma {:induction false} KernelInClass(v: Probe, mask: Row, a: Halves, b: Halves)
    requires a.On(|mask|) && b.On(|mask|) && SameClass(mask, a, b)
    ensures
      var k := Moving(mask, a);
      && Popcount(Xor(And(a.flip, k), And(b.flip, k))) <= Popcount(k)
      && Kernel(v, mask, a, b) == ClassEntry(v, k, And(a.flip, k), And(b.flip, k))
    decreases |mask|
  {
    hide SameClass, Kernel, ClassEntry, SiteFactor, Prod, Popcount;
    var k := Moving(mask, a);
    FlippedBound(k, a.flip, b.flip);
    if |mask| == 0 {
      EmptyEntry(v, mask, a, b);
    } else {
      ClassStep(mask, a, b);
      KernelInClass(v, mask[1..], TailOf(a), TailOf(b));
      RowTails(a.sel, mask);
      RowTails(a.flip, k); RowTails(b.flip, k);
      FlippedBound(k[1..], a.flip[1..], b.flip[1..]);
      EntryStep(v, k, And(a.flip, k), And(b.flip, k));
      KernelStep(v, mask, a, b);
      FactorInClass(v, mask[0], a.sel[0], a.flip[0], b.flip[0]);
    }
  }

  lemma EmptyEntry(v: Probe, mask: Row, a: Halves, b: Halves)
    requires a.On(|mask|) && b.On(|mask|) && |mask| == 0
    ensures
      var k := Moving(mask, a);
      && Popcount(Xor(And(a.flip, k), And(b.flip, k))) <= Popcount(k)
      && Kernel(v, mask, a, b) == ClassEntry(v, k, And(a.flip, k), And(b.flip, k))
  {
    hide Prod;
    ProdUnits(1.0, 1.0);
  }

  lemma FactorInClass(v: Probe, m: bool, s: bool, f: bool, f': bool)
    requires (s && m) || f == f'
    ensures SiteFactor(v, m, s, f, s, f') == ClassFactor(v, s && m, f && s && m, f' && s && m)
  {
  }

  lemma KernelStep(v: Probe, mask: Row, a: Halves, b: Halves)
    requires a.On(|mask|) && b.On(|mask|) && |mask| > 0
    ensures Kernel(v, mask, a, b)
         == Prod(SiteFactor(v, mask[0], a.sel[0], a.flip[0], b.sel[0], b.flip[0]), Kernel(v, mask[1..], TailOf(a), TailOf(b)))
  {
  }

  /** The factor of a qubit inside a class. */
  function ClassFactor(v: Probe, k: bool, f: bool, f': bool): real {
    if !k then 1.0 else if f == f' then v.cos else Signed(if v.zAxis then f else f', v.sin)
  }

  lemma PowerSteps(v: Probe, a: nat, b: nat, o: bool)
    ensures
      var e := Signed(o, Prod(Pow(v.cos, a), Pow(v.sin, b)));
      && Prod(1.0, e) == e
      && Prod(v.cos, e) == Signed(o, Prod(Pow(v.cos, a + 1), Pow(v.sin, b)))
      && Prod(v.sin, e) == Signed(o, Prod(Pow(v.cos, a), Pow(v.sin, b + 1)))
      && Prod(-v.sin, e) == Signed(!o, Prod(Pow(v.cos, a), Pow(v.sin, b + 1)))
  {
    hide Prod;
    var x, y := Pow(v.cos, a), Pow(v.sin, b);
    var e := Signed(o, Prod(x, y));
    ProdUnits(e, e);
    ProdLaws(v.cos, x, y); ProdUnits(v.cos, Prod(x, y));
    ProdLaws(v.sin, x, y); ProdLaws(x, v.sin, y); ProdUnits(v.sin, Prod(x, y)); ProdUnits(v.sin, e);
  }

  lemma PopcountStep(a: Row)
    requires |a| > 0
    ensures Popcount(a) == Bit(a[0]) + Popcount(a[1..])
  {
  }

  lemma EntryStep(v: Probe, k: Row, f: Row, f': Row)
    requires |k| == |f| == |f'| && |k| > 0
    requires Popcount(Xor(f, f')) <= Popcount(k) && Popcount(Xor(f[1..], f'[1..])) <= Popcount(k[1..])
    requires (f[0] ==> k[0]) && (f'[0] ==> k[0])
    ensures ClassEntry(v, k, f, f') == Prod(ClassFactor(v, k[0], f[0], f'[0]), ClassEntry(v, k[1..], f[1..], f'[1..]))
  {
    hide Pow, Prod, Popcount;
    var d := Xor(f, f');
    var side := if v.zAxis then f else f';
    RowTails(f, f');
    RowTails(side, d);
    PopcountStep(k); PopcountStep(d); PopcountStep(And(side, d));
    var b := Popcount(d[1..]);
    var a := Popcount(k[1..]) - b;
    var o := Popcount(And(side[1..], d[1..])) % 2 == 1;
    PowerSteps(v, a, b, o);
  }
}
