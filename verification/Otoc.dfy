/**
 Operator-spreading diagnostics: the chunked per-site weight sums, and the out-of-time-order correlator
 and support profile they give, tied to commutators and twirls of dense matrices.
 */
module Otoc {
  import opened Complexes
  import opened Paulis
  import opened PauliSums
  import opened Propagation
  import opened OleTrace

  // ---- Weights ----

  /** Squared moduli, added up where a condition on the string holds. */
  function Weight(cond: Pauli -> bool, ts: seq<Term>): real {
    if |ts| == 0 then 0.0 else (if cond(ts[0].p) then ts[0].c.Abs2() else 0.0) + Weight(cond, ts[1..])
  }

  predicate HasX(q: nat, p: Pauli) {
    q < |p.x| && p.x[q]
  }

  predicate HasZ(q: nat, p: Pauli) {
    q < |p.z| && p.z[q]
  }

  lemma {:induction false} WeightConcat(cond: Pauli -> bool, a: seq<Term>, b: seq<Term>)
    ensures Weight(cond, a + b) == Weight(cond, a) + Weight(cond, b)
  {
    hide Complex.Abs2;
    if |a| == 0 {
      assert a + b == b;
    } else {
      assert (a + b)[1..] == a[1..] + b;
      WeightConcat(cond, a[1..], b);
    }
  }

  /** Inclusion and exclusion. */
  lemma {:induction false} WeightUnion(a: Pauli -> bool, b: Pauli -> bool, ts: seq<Term>)
    ensures Weight(p => a(p) || b(p), ts) == Weight(a, ts) + Weight(b, ts) - Weight(p => a(p) && b(p), ts)
    ensures Weight(p => a(p) != b(p), ts) == Weight(a, ts) + Weight(b, ts) - 2.0 * Weight(p => a(p) && b(p), ts)
  {
    hide Complex.Abs2;
    if |ts| > 0 {
      WeightUnion(a, b, ts[1..]);
    }
  }

  lemma {:induction false} WeightSame(n: nat, a: Pauli -> bool, b: Pauli -> bool, ts: seq<Term>)
    requires OnQubits(n, ts) && forall p: Pauli :: p.On(n) ==> a(p) == b(p)
    ensures Weight(a, ts) == Weight(b, ts)
  {
    hide Complex.Abs2;
    if |ts| > 0 {
      WeightSame(n, a, b, ts[1..]);
    }
  }

  lemma {:induction false} WeightBounds(cond: Pauli -> bool, ts: seq<Term>)
    ensures 0.0 <= Weight(cond, ts) <= Norm2(ts)
  {
    hide Complex.Abs2;
    if |ts| > 0 {
      Abs2Nonnegative(ts[0].c);
      WeightBounds(cond, ts[1..]);
    }
  }

  // ---- The chunked pass ----

  datatype SiteSums = SiteSums(terms: nat, norm: real, x: seq<real>, z: seq<real>, xz: seq<real>) {
    /** Weight where either bit is set. */
    function Occupied(q: nat): real
      requires q < |x| == |z| == |xz|
    {
      x[q] + z[q] - xz[q]
    }

    /** Weight where exactly one of the two bits is set. */
    function XorAt(q: nat): real
      requires q < |x| == |z| == |xz|
    {
      x[q] + z[q] - 2.0 * xz[q]
    }
  }

  /** The per-site definitions the chunked pass must meet. */
  ghost predicate SumsOf(n: nat, ts: seq<Term>, s: SiteSums) {
    && s.terms == |ts| && s.norm == Norm2(ts)
    && |s.x| == |s.z| == |s.xz| == n
    && (forall q :: 0 <= q < n ==> s.x[q] == Weight(p => HasX(q, p), ts))
    && (forall q :: 0 <= q < n ==> s.z[q] == Weight(p => HasZ(q, p), ts))
    && (forall q :: 0 <= q < n ==> s.xz[q] == Weight(p => HasX(q, p) && HasZ(q, p), ts))
  }

  datatype Result<T> = Ok(value: T) | BadChunk | BadProbe

  /** `p @ bits` for one bit column of one chunk. */
  method Contract(cond: Pauli -> bool, rows: seq<Term>) returns (w: real)
    ensures w == Weight(cond, rows)
  {
    hide Complex.Abs2;
    w := 0.0;
    for i := 0 to |rows|
      invariant w + Weight(cond, rows[i..]) == Weight(cond, rows)
    {
      assert rows[i..][1..] == rows[i + 1..];
      if cond(rows[i].p) {
        w := w + rows[i].c.Abs2();
      }
    }
  }

  /** `p.sum()` for one chunk. */
  method ChunkNorm(rows: seq<Term>) returns (w: real)
    ensures w == Norm2(rows)
  {
    hide Complex.Abs2;
    w := 0.0;
    for i := 0 to |rows|
      invariant w + Norm2(rows[i..]) == Norm2(rows)
    {
      assert rows[i..][1..] == rows[i + 1..];
      w := w + rows[i].c.Abs2();
    }
  }

  /** `acc += p @ column` for every qubit, in place. */
  method AddColumns(acc: array<real>, column: nat -> Pauli -> bool, rows: seq<Term>)
    modifies acc
    ensures forall q :: 0 <= q < acc.Length ==> acc[q] == old(acc[q]) + Weight(column(q), rows)
  {
    hide Weight;
    for q := 0 to acc.Length
      invariant forall k :: 0 <= k < q ==> acc[k] == old(acc[k]) + Weight(column(k), rows)
      invariant forall k :: q <= k < acc.Length ==> acc[k] == old(acc[k])
    {
      var w := Contract(column(q), rows);
      acc[q] := acc[q] + w;
    }
  }

  function XColumn(): nat -> Pauli -> bool {
    q => p => HasX(q, p)
  }

  function ZColumn(): nat -> Pauli -> bool {
    q => p => HasZ(q, p)
  }

  function XZColumn(): nat -> Pauli -> bool {
    q => p => HasX(q, p) && HasZ(q, p)
  }

  lemma {:induction false} Norm2Concat(a: seq<Term>, b: seq<Term>)
    ensures Norm2(a + b) == Norm2(a) + Norm2(b)
  {
    hide Complex.Abs2;
    if |a| == 0 {
      assert a + b == b;
    } else {
      assert (a + b)[1..] == a[1..] + b;
      Norm2Concat(a[1..], b);
    }
  }

  /** An accumulator column after one more chunk. */
  lemma ChunkStep(column: nat -> Pauli -> bool, ts: seq<Term>, lo: nat, hi: nat)
    requires lo <= hi <= |ts|
    ensures forall q :: Weight(column(q), ts[..hi]) == Weight(column(q), ts[..lo]) + Weight(column(q), ts[lo..hi])
    ensures Norm2(ts[..hi]) == Norm2(ts[..lo]) + Norm2(ts[lo..hi])
  {
    hide Weight, Norm2;
    assert ts[..hi] == ts[..lo] + ts[lo..hi];
    forall q ensures Weight(column(q), ts[..hi]) == Weight(column(q), ts[..lo]) + Weight(column(q), ts[lo..hi]) {
      WeightConcat(column(q), ts[..lo], ts[lo..hi]);
    }
    Norm2Concat(ts[..lo], ts[lo..hi]);
  }

  /**
   `site_sums`: at every chunk size the per-site sums are the unchunked ones. An empty sum returns before
   the chunk size is looked at.
   */
  method SiteSumsOf(n: nat, ts: seq<Term>, chunkRows: int) returns (r: Result<SiteSums>)
    requires OnQubits(n, ts)
    ensures r == BadChunk <==> |ts| > 0 && chunkRows < 1
    ensures r.Ok? <==> |ts| == 0 || chunkRows >= 1
    ensures r.Ok? ==> SumsOf(n, ts, r.value)
  {
    hide Weight, Norm2, HasX, HasZ;
    var total := |ts|;
    var xAcc, zAcc, xzAcc := new real[n](_ => 0.0), new real[n](_ => 0.0), new real[n](_ => 0.0);
    var norm := 0.0;
    NoWeight();
    if total == 0 {
      return Ok(SiteSums(0, 0.0, xAcc[..], zAcc[..], xzAcc[..]));
    }
    if chunkRows < 1 {
      return BadChunk;
    }
    var lo := 0;
    assert ts[..0] == [];
    while lo < total
      invariant 0 <= lo <= total && norm == Norm2(ts[..lo])
      invariant forall q :: 0 <= q < n ==> xAcc[q] == Weight(XColumn()(q), ts[..lo])
      invariant forall q :: 0 <= q < n ==> zAcc[q] == Weight(ZColumn()(q), ts[..lo])
      invariant forall q :: 0 <= q < n ==> xzAcc[q] == Weight(XZColumn()(q), ts[..lo])
    {
      var hi := if lo + chunkRows < total then lo + chunkRows else total;
      var chunk := ChunkNorm(ts[lo..hi]);
      norm := norm + chunk;
      ChunkStep(XColumn(), ts, lo, hi); ChunkStep(ZColumn(), ts, lo, hi); ChunkStep(XZColumn(), ts, lo, hi);
      AddColumns(xAcc, XColumn(), ts[lo..hi]);
      AddColumns(zAcc, ZColumn(), ts[lo..hi]);
      AddColumns(xzAcc, XZColumn(), ts[lo..hi]);
      lo := hi;
    }
    assert ts[..lo] == ts;
    return Ok(SiteSums(total, norm, xAcc[..], zAcc[..], xzAcc[..]));
  }

  lemma NoWeight()
    ensures Norm2([]) == 0.0 && forall cond: Pauli -> bool :: Weight(cond, []) == 0.0
  {
  }

  // ---- The correlator ----

  /** The probe's bits: `(x, z)` of `X`, `Y` or `Z`, in either case. */
  function ProbeBits(probe: string): Result<(bool, bool)> {
    if probe == "X" || probe == "x" then Ok((true, false))
    else if probe == "Z" || probe == "z" then Ok((false, true))
    else if probe == "Y" || probe == "y" then Ok((true, true))
    else BadProbe
  }

  /** `otoc_from_sums` at site `q`. */
  function OtocFromSums(s: SiteSums, probe: string, q: nat): Result<real>
    requires q < |s.x| == |s.z| == |s.xz|
  {
    if probe == "X" || probe == "x" then Ok(2.0 * s.z[q])
    else if probe == "Z" || probe == "z" then Ok(2.0 * s.x[q])
    else if probe == "Y" || probe == "y" then Ok(2.0 * s.XorAt(q))
    else BadProbe
  }

  /** Anticommutation with a probe string. */
  predicate Anticommutes(w: Pauli, p: Pauli) {
    w.On(|p.x|) && p.On(|p.x|) && !Commutes(p, w)
  }

  /** `otoc_from_sums` is twice the weight of the strings anticommuting with the probe, within `[0, 2 N]`. */
  lemma OtocIsAnticommuting(n: nat, ts: seq<Term>, s: SiteSums, probe: string, q: nat)
    requires OnQubits(n, ts) && SumsOf(n, ts, s) && q < n && ProbeBits(probe).Ok?
    ensures
      var (gx, gz) := ProbeBits(probe).value;
      && OtocFromSums(s, probe, q) == Ok(2.0 * Weight(p => Anticommutes(Single(n, q, gx, gz), p), ts))
      && 0.0 <= OtocFromSums(s, probe, q).value <= 2.0 * s.norm
  {
    hide Weight, Norm2, Commutes, Anticommutes;
    var (gx, gz) := ProbeBits(probe).value;
    var w := Single(n, q, gx, gz);
    var anti: Pauli -> bool := p => Anticommutes(w, p);
    var x: Pauli -> bool, z: Pauli -> bool := p => HasX(q, p), p => HasZ(q, p);
    forall p: Pauli | p.On(n) ensures Anticommutes(w, p) == ((p.x[q] && gz) != (p.z[q] && gx)) {
      AnticommutesAt(n, p, q, gx, gz);
    }
    WeightBounds(anti, ts);
    WeightUnion(x, z, ts);
    assert s.x[q] == Weight(x, ts) && s.z[q] == Weight(z, ts) by {
      SumsAt(n, ts, s, q);
    }
    SumsAt(n, ts, s, q);
    if gx && gz {
      WeightSame(n, anti, p => x(p) != z(p), ts);
      WeightSame(n, p => x(p) && z(p), p => HasX(q, p) && HasZ(q, p), ts);
    } else if gx {
      WeightSame(n, anti, z, ts);
    } else {
      WeightSame(n, anti, x, ts);
    }
  }

  /** The probe by its letter, either case: twice the weight anticommuting with that Pauli on the site; any other letter is refused. */
  lemma ProbeLetters(n: nat, ts: seq<Term>, s: SiteSums, probe: string, q: nat)
    requires OnQubits(n, ts) && SumsOf(n, ts, s) && q < n
    ensures OtocFromSums(s, probe, q) == BadProbe <==> probe !in {"X", "x", "Y", "y", "Z", "z"}
    ensures probe in {"X", "x"} ==> OtocFromSums(s, probe, q) == Ok(2.0 * Weight(p => Anticommutes(Single(n, q, true, false), p), ts))
    ensures probe in {"Y", "y"} ==> OtocFromSums(s, probe, q) == Ok(2.0 * Weight(p => Anticommutes(Single(n, q, true, true), p), ts))
    ensures probe in {"Z", "z"} ==> OtocFromSums(s, probe, q) == Ok(2.0 * Weight(p => Anticommutes(Single(n, q, false, true), p), ts))
  {
    hide Weight, Anticommutes, SumsOf, SiteSums.XorAt;
    if ProbeBits(probe).Ok? {
      OtocIsAnticommuting(n, ts, s, probe, q);
    }
  }

  lemma SumsAt(n: nat, ts: seq<Term>, s: SiteSums, q: nat)
    requires SumsOf(n, ts, s) && q < n
    ensures s.x[q] == Weight(p => HasX(q, p), ts) && s.z[q] == Weight(p => HasZ(q, p), ts)
    ensures s.xz[q] == Weight(p => HasX(q, p) && HasZ(q, p), ts)
  {
  }

  lemma AnticommutesAt(n: nat, p: Pauli, q: nat, gx: bool, gz: bool)
    requires p.On(n) && q < n
    ensures Anticommutes(Single(n, q, gx, gz), p) == ((p.x[q] && gz) != (p.z[q] && gx))
  {
    WithSingle(n, p, q, gx, gz);
  }

  /** The support profile weighs the strings with a factor at the site, and the mean correlator is `4/3` of it. */
  lemma ProbeAverage(n: nat, ts: seq<Term>, s: SiteSums, q: nat)
    requires OnQubits(n, ts) && SumsOf(n, ts, s) && q < n
    ensures s.Occupied(q) == Weight(p => HasX(q, p) || HasZ(q, p), ts)
    ensures (OtocFromSums(s, "X", q).value + OtocFromSums(s, "Y", q).value + OtocFromSums(s, "Z", q).value) / 3.0
         == 4.0 / 3.0 * s.Occupied(q)
  {
    hide Weight, Norm2;
    SumsAt(n, ts, s, q);
    var x: Pauli -> bool, z: Pauli -> bool := p => HasX(q, p), p => HasZ(q, p);
    WeightUnion(x, z, ts);
    WeightSame(n, p => x(p) && z(p), p => HasX(q, p) && HasZ(q, p), ts);
    WeightSame(n, p => x(p) || z(p), p => HasX(q, p) || HasZ(q, p), ts);
  }
}
