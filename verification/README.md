# Pauli propagation: a verified model

This project models the numerical core of a Pauli-propagation toolkit and proves that its fast symplectic
algorithms mean what their dense definitions say.

* **Ground truth.** `Complexes` and `Dense` give complex numbers over exact reals and `2^n x 2^n` matrices
  as quadtrees, with the ring, adjoint and trace laws. `Paulis` gives strings as `(x, z)` bit rows, their
  product phase and commutation test, and the Kronecker product each denotes. `PauliSums` gives merged sums
  and their operators.
* **Propagation** (`MergeStreams`, `LayerStreams`, `Propagation`, `CausalCone`, `Lattice`). The two-stream
  merge, whole runs through it, and a simple run of rotation layers with truncation: without truncation it is
  `U^dagger O U`; norms never grow; strings stay inside the causal cone.
* **Operator Loschmidt echo** (`OleKernel`, `OleTrace`, `OleSums`, `OleOverlap`, `OleLaws`, `OleRanks`,
  `OleSplit`, `OleDiagonal`, `OleMoments`, `EchoCircuit`). The class-sorted, chunked estimator equals the
  naive sum over all pairs, which equals the trace; its bounds and symmetries; exactly when distributed shares
  add up; the diagonal echo and its moments; the echo circuit.
* **Spreading diagnostics** (`Otoc`, `OtocDense`), **dense expectations** (`Expectation`), **Clifford
  preparation** (`Cliffords`, `CliffordDense`, `Cluster`, `ClusterCircuit`), **operator Schmidt matrix**
  (`Schmidt`, `SchmidtMatrix`).
* **Driver state machines** (`Convergence`, `Parity`, `Crossover`, `MemoryModel`).

Angles are pairs of reals with `c^2 + s^2 = 1`: a rotation carries its half-angle pair, the echo its pair
`cos 2 delta`, `sin 2 delta`. Bit rows are `seq<bool>`, qubit 0 first. Random draws, clocks, engine
measurements, free memory and the logarithm are parameters. `dafny verify dfyconfig.toml` checks everything.

Three findings where the code and what is said about it differ; the model follows the code:

* `cluster_state_stabilizers` lists a neighbour once however many edges join it, while CZs on one pair cancel in
  twos (`Cluster.DoubledEdge`; the exact condition is `Cluster.ListedIffOdd`).
* `self_converged_reference` documents the last observed difference as the uncertainty of an unconverged sweep,
  and returns the larger of the last two (`Convergence.UncertaintyIsNotLast`; the exact condition is
  `Convergence.UncertaintyIsLast`).
* A refit that keeps the old memory model can leave the newest measurement above its projection
  (`MemoryModel.EqualLegsUncovered`; the exact condition is `MemoryModel.LastCovered`). The gate built on it is
  safe over all histories exactly for engines the prior is pessimistic about (`MemoryModel.GateSafety`).

The driver's comment that partition rows must not read the probe sites' x-bits is proved sufficient in
`OleRanks.DrawnRanksAddUp`. The exact condition for the complex total is that strings the probe mixes share a
rank (`OleSplit.AddsUpIff`), which away from the quarter turns means whole classes; the returned real part needs
only those an even number of flips apart (`OleSplit.RealAddsUpIff`).

## Model

| member | source | states |
|---|---|---|
| `Paulis.ProductIsDense` | crates/paulistrings/src/pauli_string.rs:73-93 | for all strings of all widths, the key and phase of `mul_assign` are the dense matrix product of the two Kronecker products |
| `Paulis.PhaseSwap` | crates/paulistrings/src/pauli_string.rs:73-93 | swapping the factors changes the phase exponent by 0 or 2 mod 4, decided by the symplectic form |
| `Paulis.CommutesIsDense` | crates/paulistrings/src/pauli_string.rs:116-123 | the one-popcount test decides whether the dense matrices commute or anticommute; there is no third case |
| `Paulis.SquareIsIdentity` | examples/b1_operator_scrambling/scrambling.py:612-620 | every Pauli string squares to the dense identity, the fact the rotation formula rests on |
| `Paulis.PauliDagger` | examples/b1_operator_scrambling/scrambling.py:675-685 | every Pauli string is Hermitian |
| `Paulis.PauliTrace` | examples/b1_operator_scrambling/scrambling.py:675-685 | the trace of a string is `2^n` for the identity key and 0 otherwise |
| `Paulis.PauliOrthogonal` | examples/b1_operator_scrambling/scrambling.py:675-685 | `Tr(P Q)` is `2^n` when `P == Q` and 0 otherwise |
| `PauliSums.MergeMat` | crates/paulistrings/src/engine/merge.rs:250-309 | the simple merge, one row per key: it keeps the operator and invents no key |
| `MergeStreams.MergeIdentityAndRest` | crates/paulistrings/src/engine/merge.rs:250-325 | the three loops over an ascending and a sorted stream emit, in ascending order, exactly the rows whose full sum is nonzero and kept |
| `MergeStreams.StreamsAreMerge` | crates/paulistrings/src/engine/merge.rs:250-325 | that output holds the same rows as the simple merge of both streams followed by the policy |
| `LayerStreams.KeyRankOrders` | crates/paulistrings/src/pauli_string.rs:2-13 | the order of one-word keys, x word before z word, gives every key of a register its own position |
| `LayerStreams.KeyRankLexicographic` | crates/paulistrings/src/pauli_string.rs:2-20 | that order compares x words first, then z words |
| `LayerStreams.WordBit` | crates/paulistrings/src/pauli_string.rs:14-20 | bit `q` of a word is the row's entry for qubit `q` |
| `LayerStreams.StreamsAreLayer` | crates/paulistrings/src/engine/merge.rs:250-325 | merging a layer's kept-key stream with its sorted branches gives the rows of the simple layer |
| `LayerStreams.RotationLayer` | crates/paulistrings/src/engine/merge.rs:250-325 | one engine layer: ascending rows in, ascending rows out, exactly those of the simple layer |
| `LayerStreams.PropagateStreams` | examples/b1_operator_scrambling/scrambling.py:653-666 | for every circuit and policy the run through merged streams ends in ascending order with the rows of the simple run |
| `PauliSums.TraceCoef` | examples/b1_operator_scrambling/scrambling.py:675-685 | `Tr(P O) / 2^n` is the coefficient of `P` in the sum |
| `PauliSums.TraceOverlap` | examples/b1_operator_scrambling/scrambling.py:669-685 | `Tr(A^dagger B) == 2^n sum conj(a_P) b_P` for any two sums |
| `PauliSums.OverlapSelf` | examples/b1_operator_scrambling/scrambling.py:360-369 | for distinct keys the overlap of a sum with itself is `hs_norm` |
| `Propagation.ApplyAdjointIsConjugation` | crates/paulistrings/src/channel/rotation.rs:43-66 | the one or two rows of the rotation by `-theta`, phases included, denote `U^dagger P U` for the dense `U` |
| `Propagation.EmitIsConjugation` | crates/paulistrings/src/channel/rotation.rs:94-102 | one whole layer denotes the conjugated operator |
| `Propagation.LayerKeys` | crates/paulistrings/src/engine/merge.rs:311-325 | every layer's output has distinct keys on the register, whatever the policy |
| `Propagation.RunIsConjugation` | examples/b1_operator_scrambling/scrambling.py:653-666 | for every rotation circuit and observable the untruncated run denotes `U^dagger O U` |
| `Propagation.DenseUnitary` | examples/b1_operator_scrambling/scrambling.py:639-650 | the accumulating loop returns the product with gate 0 acting first |
| `Propagation.Propagate` | examples/b1_operator_scrambling/scrambling.py:653-666 | the layer loop, last gate first, computes the run |
| `Propagation.GateUnitary` | examples/b1_operator_scrambling/scrambling.py:609-636 | `cos(theta/2) I - i sin(theta/2) P` times its adjoint is the identity |
| `Propagation.TraceInvariant` | examples/b1_operator_scrambling/scrambling.py:360-369 | conjugation by a unitary keeps `Tr(B^dagger B)` |
| `Propagation.LayerNorm` | examples/b1_operator_scrambling/scrambling.py:360-369 | one layer before truncation conserves the squared norm |
| `Propagation.RunNorm` | examples/b1_operator_scrambling/scrambling.py:360-369 | over whole runs the squared norm is conserved without truncation and never grows with it |
| `Propagation.RunKeeps` | crates/paulistrings/src/channel/rotation.rs:43-66 | an invariant every gate preserves on its branches holds of every string of every run, truncated or not |
| `CausalCone.KickedIsing` | examples/b2_noisy_verification/run_b2.py:259-276 | a negative step count is refused; otherwise `steps * (n + edges)` gates, gate `q` of each step an X rotation on `q` alone by the kick angle, gate `n + e` a ZZ rotation on exactly the ends of bond `e` by the bond angle |
| `CausalCone.KickKeepsSupport` | examples/b2_noisy_verification/run_b2.py:270-272 | a kick never enlarges a support set |
| `CausalCone.BondKeepsCone` | examples/b2_noisy_verification/run_b2.py:273-275 | a bond rotation flips no new qubit and stays within one bond of the seed set |
| `CausalCone.StepCone` | examples/b2_noisy_verification/run_b2.py:269-275 | one Trotter step, its commuting bonds in any order, enlarges the support by at most one bond |
| `CausalCone.ConeOfRun` | examples/b1_operator_scrambling/run_b1_1d.py:473-477 | for every graph, edge order, truncation policy and step count `t`, every string lies within graph distance `t` of the seed |
| `Lattice.IndexCoordsInverse` | examples/b1_operator_scrambling/scrambling.py:173-184 | index and coordinates are mutual inverses and each refuses exactly what is off the lattice |
| `Lattice.IndexRowMajor` | examples/b1_operator_scrambling/scrambling.py:173-184 | row-major numbering: the first site is 0, one column on adds 1, one row on the number of columns |
| `Lattice.SquareEdges` | examples/b1_operator_scrambling/scrambling.py:187-208 | refuses an empty lattice; otherwise every nearest-neighbour pair exactly once, as (lo, hi) |
| `Lattice.ManhattanIsGraphDistance` | examples/b1_operator_scrambling/scrambling.py:245-255 | a site is reachable in `t` bonds of the built edge list iff its Manhattan entry is at most `t` |
| `Lattice.LatticeCone` | examples/b1_operator_scrambling/scrambling.py:245-255 | on the square lattice every string of a `t`-step run lies in the Manhattan ball of radius `t` |
| `OleKernel.KernelOffClass` | examples/b8_ole/ole.py:226-227 | the product of site kernels vanishes between strings of different classes |
| `OleKernel.KernelInClass` | examples/b8_ole/ole.py:263-268 | inside a class the product of site kernels is the tabulated `+-cos^(k-f) sin^f` with the popcount sign, for either axis |
| `OleTrace.KernelIsTrace` | examples/b8_ole/ole.py:225-227 | the kernel is `2^-n Tr(P V^dagger Q V)` for the dense product `V` of site rotations, at every angle |
| `OleSums.PairSumPermutation` | examples/b8_ole/ole.py:240-241 | the naive all-pairs sum does not depend on the order of the terms |
| `OleSums.PairSumIsTrace` | examples/b8_ole/ole.py:225-227 | `Tr(A^dagger V^dagger B V) == 2^n` times the naive all-pairs sum, for any two sums |
| `OleOverlap.SiteMask` | examples/b8_ole/ole.py:183-192 | a repeated site is refused before an outside one; otherwise exactly the listed bits are set |
| `OleOverlap.MaskWeight` | examples/b8_ole/ole.py:183-192 | a valid mask has as many bits as sites, so the power tables are long enough |
| `OleOverlap.KeyIsClass` | examples/b8_ole/ole.py:238-239 | equal sort keys are exactly membership in one class |
| `OleOverlap.Lexsort` | examples/b8_ole/ole.py:239-241 | the sort is a permutation ordered by key |
| `OleOverlap.ClassStarts` | examples/b8_ole/ole.py:242-244 | the flagged positions are exactly the first rows of the runs of equal keys |
| `OleOverlap.ClassRuns` | examples/b8_ole/ole.py:242-247 | every row gets the start and size of its own run |
| `OleOverlap.ColumnsArePairs` | examples/b8_ole/ole.py:259-262 | the repeat, arange and cumsum columns enumerate exactly the ordered pairs of each row with its run |
| `OleOverlap.PowerTable` | examples/b8_ole/ole.py:250-252 | entry `j` of the table is the `j`-th power |
| `OleOverlap.ChunkBounds` | examples/b8_ole/ole.py:255 | for each multiple of the chunk size below the total, the row in which the running total reaches it; between consecutive bounds at most one run over the chunk size |
| `OleOverlap.ChunkIsRows` | examples/b8_ole/ole.py:256-268 | the pairs of a chunk of rows sum to those rows of the naive all-pairs sum: pairs outside the class contribute nothing |
| `OleOverlap.ChunkSum` | examples/b8_ole/ole.py:259-268 | one chunk accumulates exactly its pairs' `conj(c_P) c_Q R[P, Q]` |
| `OleOverlap.ClassPairs` | examples/b8_ole/ole.py:242-268 | the chunked pair loop equals the naive all-pairs sum of the sorted rows, at every chunk size |
| `OleOverlap.SplitRows` | examples/b8_ole/ole.py:232-235 | rows split into a fixed part, contributing its norm, and the moving rows; nothing is lost |
| `OleOverlap.FixedAndMoving` | examples/b8_ole/ole.py:232-237 | the naive sum is the moving pairs plus the fixed norm |
| `OleOverlap.RotatedOverlapComplex` | examples/b8_ole/ole.py:224-269 | the sites and axis errors; otherwise masking, sorting, run lengths, chunks and tables together equal the naive sum over all ordered pairs |
| `OleLaws.EchoBound` | examples/b8_ole/ole.py:272-277 | for all complex coefficients, sites and angles the echo's modulus is at most the squared norm |
| `OleLaws.EchoZeroAngle` | examples/b8_ole/ole.py:272-277 | at `delta = 0` the echo equals the squared norm |
| `OleLaws.EchoConventions` | examples/b8_ole/ole.py:263-269 | exchanging the axis sign rules, or negating `delta`, conjugates the total and leaves the returned real part unchanged |
| `OleLaws.CircuitUnitary` | examples/b1_operator_scrambling/scrambling.py:639-650 | the dense unitary of every rotation circuit is unitary |
| `OleRanks.SameOwner` | crates/paulistrings/src/pauli_sum/hash.rs:399-417 | clearing the excluded bits of every row makes the partition of a key blind to those bits, whatever rows were drawn |
| `OleRanks.PartitionBelow` | crates/paulistrings/src/pauli_sum/hash.rs:178-188 | the partition index is below `2^rows` |
| `OleRanks.PartitionBit` | crates/paulistrings/src/pauli_sum/hash.rs:178-188 | bit `i` of the index is the parity of row `i` |
| `OleRanks.ParityLinear` | crates/paulistrings/src/pauli_sum/hash.rs:178-188 | a row's parity of a product of keys is the exclusive or of the two parities |
| `OleRanks.ParityUnit` | crates/paulistrings/src/pauli_sum/hash.rs:178-188 | on a key with one X or one Z it reads that coordinate of the row |
| `OleRanks.ClearedReads` | crates/paulistrings/src/pauli_sum/hash.rs:399-417 | clearing coordinates in the rows is clearing them in the key: everything not excluded is still read |
| `OleRanks.ExclusionKeepsClasses` | examples/b8_ole/run_b8.py:98-104 | excluding all z-bits and the probe sites' x-bits never splits a class, for either axis |
| `OleRanks.SeparatedAddUp` | examples/b8_ole/ole.py:272-277 | whenever the kernel vanishes between strings of different ranks, the per-rank echoes sum to the echo of the whole sum |
| `OleRanks.RanksAddUp` | examples/b8_ole/ole.py:272-277 | whenever no class is split, the per-rank echoes sum to the echo of the whole sum |
| `OleRanks.DrawnRanksAddUp` | examples/b8_ole/run_b8.py:98-104 | under the driver's exclusion the ranks add up for every drawn matrix and every sum |
| `OleSplit.KernelSwap` | examples/b8_ole/ole.py:265-268 | exchanging two strings of a class multiplies the kernel by one sign per flip |
| `OleSplit.KernelNonzero` | examples/b8_ole/ole.py:263-268 | which entries vanish: off a class always; at a zero cosine all but the string flipped at every moving site; at a zero sine all but the string itself |
| `OleSplit.MixedByAngle` | examples/b8_ole/ole.py:272-277 | with neither zero, keeping mixed strings together is keeping classes together; at a zero sine every owner function does so |
| `OleSplit.AddsUpIff` | examples/b8_ole/ole.py:272-277 | at every angle the ranks' complex echoes add up for every sum exactly when strings the probe mixes share a rank |
| `OleSplit.RealAddsUpIff` | examples/b8_ole/ole.py:272-277 | at every angle the returned real parts add up for every sum exactly when strings mixed by an even number of flips share a rank |
| `OleSplit.OneSiteNeverLoses` | examples/b8_ole/ole.py:272-277 | with one probe site every owner function meets that condition |
| `OleSplit.RotatedOverlap` | examples/b8_ole/ole.py:272-277 | the errors of the sites, then of the axis; otherwise the sum of the ranks' real parts, which is the whole echo's under either condition |
| `OleDiagonal.AnticommuteHistogram` | examples/b8_ole/ole.py:208-214 | the site and axis errors; otherwise bin `k` is the weight of strings anticommuting with exactly `k` generators |
| `OleDiagonal.CountIsAnticommuting` | examples/b8_ole/ole.py:208-214 | the popcount that picks the bin is the number of site generators the string anticommutes with |
| `OleDiagonal.RankBinsAddUp` | examples/b8_ole/ole.py:204-215 | however the strings are spread over ranks, the ranks' bins add up to those of the whole sum |
| `OleDiagonal.ReducedHistogram` | examples/b8_ole/ole.py:208-215 | the site error, then the axis error; otherwise the reduction over ranks returns the histogram of the whole sum |
| `OleDiagonal.HistogramMeaning` | examples/b8_ole/ole.py:218-221 | the histogram conserves the squared norm and its cosine-weighted sum is the class-diagonal part `R[P, P]` weighted by squared moduli |
| `OleDiagonal.DiagonalEcho` | examples/b8_ole/ole.py:218-221 | the quotient times the total weight is the cosine-weighted sum; zero weight gives not-a-number |
| `OleDiagonal.SingletonClasses` | examples/b8_ole/ole.py:218-221 | when every class holds one string, the diagonal part is the whole echo |
| `OleMoments.DiagonalMoments` | examples/b8_ole/ole.py:146-157 | undefined when a bin is divided by a zero total; otherwise the even moments of the binomial walk, weighted by the normalized histogram; zeros for an empty histogram |
| `OleMoments.WeightsMean` | examples/b8_ole/ole.py:146-148 | each weight times the total is its bin, and the weights sum to 1 |
| `OleMoments.FirstMoments` | examples/b8_ole/ole.py:146-157 | for every histogram of nonzero weight the zeroth moment is 1 and the first four times the mean count |
| `OleMoments.WalkCosine` | examples/b8_ole/ole.py:146-157 | the binomial mean of a cosine over the walk `2k - n` is a power of its step, for every length |
| `OleMoments.DiagonalEchoIsMean` | examples/b8_ole/ole.py:218-221 | the diagonal echo is the weighted mean of a cosine over the walk, for every function with the cosine's addition law |
| `OleMoments.TruncatedSeries` | examples/b8_ole/ole.py:160-165 | not a number when the moments are undefined; otherwise the sum of the moments weighted by the list whose entry 0 is 1 and whose entry `m + 1` times `(2m + 2)(2m + 1)` is `-delta^2` times entry `m` |
| `OleMoments.SeriesIsTaylorMean` | examples/b8_ole/ole.py:160-165 | that partial sum is the weighted walk mean of the cosine's Taylor polynomial at `2 delta (2k - n)`, at every order |
| `OleMoments.TaylorRecurrence` | examples/b8_ole/ole.py:160-165 | the law that determines the terms of that polynomial: the first is 1, each next times `(2m + 2)(2m + 1)` is `-y^2` times the one before |
| `OleMoments.TruncationError` | examples/b8_ole/ole.py:160-165 | for nonnegative weights the diagonal echo lies within the first omitted term of the partial sum, for every cosine that stays within its own first omitted Taylor term |
| `OleDiagonal.KernelOrthogonal` | examples/b8_ole/ole.py:263-268 | over all `4^n` strings the kernel's rows are orthonormal |
| `OleDiagonal.AllListed` | examples/b8_ole/ole.py:263-268 | the list the orthogonality sums over holds every string, `4^n` entries in all |
| `EchoCircuit.InvertOps` | examples/b8_ole/ole.py:64-65 | a name missing from the table raises; otherwise the reversed list of table inverses with negated angles |
| `EchoCircuit.InvertInvert` | examples/b8_ole/ole.py:64-65 | inverting twice gives the ops back |
| `EchoCircuit.InvertUndoes` | examples/b8_ole/ole.py:64-65 | in every interpretation where each gate is undone by its table inverse, a circuit followed by its inverse is the identity |
| `EchoCircuit.TableUndoes` | examples/b8_ole/ole.py:64-65 | the inverse table is right: with `s`, `sx` quarter turns, `sdg`, `sxdg` their opposites, additive `rx`, `rz` and a self-inverse `cz`, every op is undone by its entry |
| `EchoCircuit.EchoAt` | examples/b8_ole/ole.py:82-93 | the echo half position by position: each base op in every forward layer, `eta` off exactly the `rx` on scattering qubits, and its inverse at the mirrored place of every inverse layer |
| `EchoCircuit.RestoredEcho` | examples/b8_ole/ole.py:82-93 | at every `eta`: with a turn by `eta` after each scattered `rx` of the forward half, the whole echo half is the identity |
| `EchoCircuit.PhysicalEcho` | examples/b8_ole/ole.py:82-93 | both laws at every `eta` for the gates the names stand for |
| `EchoCircuit.EchoIsIdentity` | examples/b8_ole/ole.py:82-93 | at `eta = 0` the echo half is the identity, for every layer, scattering set and `L` |
| `EchoCircuit.EchoReversible` | examples/b8_ole/ole.py:82-93 | at every `eta` the inverse circuit undoes the echo half |
| `Otoc.SiteSumsOf` | examples/b1_operator_scrambling/scrambling.py:322-357 | an empty sum returns before the chunk size is checked; at every chunk size the sums are the unchunked per-site weights |
| `Otoc.OtocIsAnticommuting` | examples/b1_operator_scrambling/scrambling.py:401-430 | the correlator is twice the weight of the strings anticommuting with the probe, and lies in `[0, 2 N]` |
| `Otoc.ProbeLetters` | examples/b1_operator_scrambling/scrambling.py:401-430 | by letter, either case: X, Y or Z on the site; any other probe is refused |
| `Otoc.ProbeAverage` | examples/b1_operator_scrambling/scrambling.py:433-446 | `occupied` weighs exactly the strings acting on the site, and the mean over probes is `4/3` of it |
| `OtocDense.CommutatorIsAnticommuting` | examples/b1_operator_scrambling/scrambling.py:688-697 | `[W, A]` is `2 W` times the part of `A` anticommuting with `W` |
| `OtocDense.OtocIsCommutator` | examples/b1_operator_scrambling/scrambling.py:688-697 | the bit-mask correlator equals `1/2 <[W, O], [W, O]>` of the dense commutator |
| `OtocDense.TwirlKeepsIdle` | examples/b1_operator_scrambling/scrambling.py:700-717 | the single-qubit twirl keeps exactly the strings with the identity at the site |
| `OtocDense.SupportIsTwirl` | examples/b1_operator_scrambling/scrambling.py:700-717 | the support profile equals the norm the dense twirl removes |
| `Expectation.FlipMask` | examples/b7_stabilizer_prep/stabilizer_prep.py:484-487 | the or-loop builds the xor mask with qubit 0 most significant |
| `Expectation.Phases` | examples/b7_stabilizer_prep/stabilizer_prep.py:493-503 | the in-place passes leave, at each index, the phase of its source index |
| `Expectation.GatherEntry` | examples/b7_stabilizer_prep/stabilizer_prep.py:375-379 | entry `j` of the Kronecker product applied to a vector is the amplitude at `j ^ flip` times the phase at that source index |
| `Expectation.DensePauliExpectation` | examples/b7_stabilizer_prep/stabilizer_prep.py:466-504 | size error, then character error; otherwise the expectation in the state of the Kronecker product of the label's one-qubit matrices, and it is real |
| `Expectation.LabelIsKron` | examples/b7_stabilizer_prep/stabilizer_prep.py:332-379 | the key of a label denotes the Kronecker product of the written-out one-qubit matrices, first character most significant |
| `Expectation.InnerDagger` | examples/b7_stabilizer_prep/stabilizer_prep.py:466-504 | a matrix moves across the inner product as its adjoint |
| `Expectation.ExpectationIsReal` | examples/b7_stabilizer_prep/stabilizer_prep.py:466-504 | every expectation of a Pauli string is real |
| `Expectation.DestinationPhase` | examples/b7_stabilizer_prep/stabilizer_prep.py:489-492 | taking the phase at the destination instead changes it by one sign per `Y` |
| `Cliffords.CzImage` | crates/paulistrings/src/channel/ptm/clifford.rs:54-61 | multiplying out the generator images gives the CZ rule with a real sign on all 16 inputs |
| `Cliffords.CnotImage` | crates/paulistrings/src/channel/ptm/clifford.rs:39-46 | the same for CNOT |
| `Cliffords.GateRule` | crates/paulistrings/src/channel/ptm/clifford.rs:10-61 | the tables act as the four bit-and-sign rules at any qubits of any register |
| `Cliffords.Involution` | examples/b7_stabilizer_prep/stabilizer_prep.py:280-295 | H, CNOT and CZ undo themselves on every signed string |
| `Cliffords.RoundIsIdentity` | examples/b7_stabilizer_prep/stabilizer_prep.py:279-295 | every padding round has valid, distinct targets and is the identity |
| `Cliffords.RoundGates` | examples/b7_stabilizer_prep/stabilizer_prep.py:279-295 | the drawn kind decides the gates, all on the drawn qubit; the second target is the drawn number among the other qubits |
| `Cliffords.IdentityPadding` | examples/b7_stabilizer_prep/stabilizer_prep.py:257-296 | rounds error, then size error; otherwise the rounds of the draws in order, a valid circuit that fixes every signed string |
| `Cliffords.PaddingKeepsGenerators` | examples/b7_stabilizer_prep/stabilizer_prep.py:257-270 | padding appended to any preparation changes no generator |
| `CliffordDense.GateIsConjugation` | crates/paulistrings/src/channel/ptm/clifford.rs:10-61 | the tables are conjugation: `G P == P' G` for the gate's dense matrix, signs included |
| `CliffordDense.GateScaledUnitary` | examples/b7_stabilizer_prep/stabilizer_prep.py:344-360 | those matrices are unitary up to their stated scale |
| `CliffordDense.HadamardLiteral` | examples/b7_stabilizer_prep/stabilizer_prep.py:345 | on one qubit the Hadamard matrix is the source's array times the square root of 2 |
| `CliffordDense.PhaseLiteral` | examples/b7_stabilizer_prep/stabilizer_prep.py:346 | on one qubit the phase-gate matrix is twice the source's array |
| `CliffordDense.ControlledLiteral` | examples/b7_stabilizer_prep/stabilizer_prep.py:351-360 | on two qubits the CNOT and CZ matrices are twice the source's arrays, block by block |
| `CliffordDense.PushIsConjugation` | examples/b7_stabilizer_prep/stabilizer_prep.py:232-254 | pushing a signed string through a whole circuit is conjugation by the circuit's dense matrix |
| `CliffordDense.PreparedGenerators` | examples/b7_stabilizer_prep/stabilizer_prep.py:163-186 | for every simple graph and CZ order the preparation's matrix carries each `Z_q` to the listed generator |
| `Cluster.Prepared` | examples/b7_stabilizer_prep/stabilizer_prep.py:232-254 | for every edge list without loops and every order of its CZs, `+Z_q` becomes `+X_q` times `Z` on the qubits joined to `q` an odd number of times |
| `Cluster.GeneratorsCommute` | examples/b7_stabilizer_prep/stabilizer_prep.py:163-186 | all generators of a graph commute pairwise |
| `Cluster.ListedIffOdd` | examples/b7_stabilizer_prep/stabilizer_prep.py:163-186 | the listed generators are the prepared ones exactly when no pair is joined by a positive even number of edges |
| `Cluster.DoubledEdge` | examples/b7_stabilizer_prep/stabilizer_prep.py:163-186 | a doubled edge, where the list is wrong |
| `Cluster.SimpleGraphPrepared` | examples/b7_stabilizer_prep/stabilizer_prep.py:163-186 | for every simple graph and every order, exactly the listed `+K_q` |
| `ClusterCircuit.GridAdjacency` | examples/b7_stabilizer_prep/stabilizer_prep.py:134-144 | an outside edge is refused; otherwise every qubit has the increasing list of its neighbours, each as often as edges join it |
| `ClusterCircuit.PauliLabel` | examples/b7_stabilizer_prep/stabilizer_prep.py:147-160 | the first bad entry decides the error, an outside qubit before a bad character; otherwise the last character assigned to each qubit, `I` elsewhere |
| `ClusterCircuit.ClusterStateStabilizers` | examples/b7_stabilizer_prep/stabilizer_prep.py:163-186 | the adjacency error, or one `+` label per qubit read off the graph |
| `ClusterCircuit.FreeColor` | examples/common/circuits.py:176-178 | the first color free at both ends; the search ends |
| `ClusterCircuit.EdgeColoring` | examples/common/circuits.py:158-184 | a partition of the edges into sorted matchings, with at most `2 d - 1` classes when no qubit has more than `d` edges; first fit: a smaller edge blocks each edge from every lower class |
| `ClusterCircuit.ClusterPrepCircuit` | examples/b7_stabilizer_prep/stabilizer_prep.py:232-254 | a loop or an outside edge is refused as a bad gate; otherwise Hadamards, then the CZs of the coloring's layers or of the one sorted layer |
| `Schmidt.BitMask` | examples/b6_resource_probes/resource_probes.py:376-386 | the loop sets exactly the bits of the span |
| `Schmidt.FactorsDetermine` | examples/b6_resource_probes/resource_probes.py:400-407 | the left and right factors determine the string |
| `Schmidt.Unique` | examples/b6_resource_probes/resource_probes.py:421-428 | the distinct rows in strictly increasing order, covering all keys, with a correct inverse index |
| `Schmidt.ScatterCells` | examples/b6_resource_probes/resource_probes.py:464-468 | whatever the indices, each cell is the sum of the coefficients sent to it |
| `Schmidt.ScatterWeight` | examples/b6_resource_probes/resource_probes.py:472-478 | for injective indices the squared entries sum to the Hilbert-Schmidt weight |
| `SchmidtMatrix.NormalizeCut` | examples/b6_resource_probes/resource_probes.py:389-397 | exactly the nontrivial cuts pass, unchanged; the default is the middle |
| `SchmidtMatrix.FactorIndices` | examples/b6_resource_probes/resource_probes.py:400-428 | the empty sum is refused; rows are exactly the distinct left factors, at most `min(T, 4^cut)`, and columns the right ones |
| `SchmidtMatrix.DistinctCells` | examples/b6_resource_probes/resource_probes.py:403-407 | distinct keys have distinct index pairs |
| `SchmidtMatrix.CellIsCoef` | examples/b6_resource_probes/resource_probes.py:445-450 | a cell holds the coefficient of exactly its two factors, `M[a, b] == c_(a x b)` |
| `SchmidtMatrix.ReadBack` | examples/b6_resource_probes/resource_probes.py:445-450 | for distinct keys every coefficient is read back from the cell of its factors |
| `SchmidtMatrix.SchmidtShape` | examples/b6_resource_probes/resource_probes.py:431-439 | cut error before empty error; the shape is the number of distinct left and right factors |
| `SchmidtMatrix.ScatterInPlace` | examples/b6_resource_probes/resource_probes.py:464-469 | the in-place scatter is the scatter |
| `SchmidtMatrix.SchmidtMatrixOf` | examples/b6_resource_probes/resource_probes.py:442-469 | cut error, empty error, and the size error exactly when the factors' product is over the guard; otherwise the Schmidt matrix of exactly those factors, conserving the weight |
| `Convergence.SelfConvergedReference` | benchmarks/python/bench_b_theta_sweep.py:440-547 | grid errors; otherwise a run of the loop: it went on after every earlier point and had a reason to stop at the last |
| `Convergence.PointsMean` | benchmarks/python/bench_b_theta_sweep.py:492-531 | what is recorded of each point: its cutoff, its measurement, and its distance from the point before |
| `Convergence.ConvergedIff` | benchmarks/python/bench_b_theta_sweep.py:338-385 | on the points alone: converged exactly when there are three, the last sum is non-empty, the last two moves are below `tol`, and either the last term counts agree or both moves are real; no earlier point of the run had that |
| `Convergence.StoppedIff` | benchmarks/python/bench_b_theta_sweep.py:388-437 | on the points, the time and the budgets: which of the four stops is reported, each exactly when its guard is the first to fire, growth by cross-multiplication |
| `Convergence.GrowthIsLeast` | benchmarks/python/bench_b_theta_sweep.py:388-437 | the projected growth is the least factor that is at least 3 and at least the observed ratio |
| `Convergence.UncertaintyIsLarger` | benchmarks/python/bench_b_theta_sweep.py:531 | the reported uncertainty bounds the last two moves and is one of them; absent exactly after one point |
| `Convergence.ConvergedMeans` | benchmarks/python/bench_b_theta_sweep.py:338-385 | converged excludes stopped-early, gives uncertainty below `tol` and a non-empty sum, and zero uncertainty forces equal last term counts |
| `Convergence.StoppedMeans` | benchmarks/python/bench_b_theta_sweep.py:468-472 | an unconverged run never saw a plateau, and used the whole grid unless a budget stopped it |
| `Convergence.TermBudget` | benchmarks/python/bench_b_theta_sweep.py:388-437 | with `max_terms`, every non-final point from the second on has at most a third of it |
| `Convergence.TimeBudget` | benchmarks/python/bench_b_theta_sweep.py:388-437 | with `max_seconds`, every non-final point from the second on left room for three times its own time |
| `Convergence.PrefixDecides` | benchmarks/python/bench_b_theta_sweep.py:492-524 | extending the grid never changes a run that converged or stopped inside it |
| `Convergence.UncertaintyIsLast` | benchmarks/python/bench_b_theta_sweep.py:531 | the reported uncertainty is the last difference exactly when that is not the smaller of the last two |
| `Convergence.UncertaintyIsNotLast` | benchmarks/python/bench_b_theta_sweep.py:463-466 | an unconverged run whose reported uncertainty is not its last difference, against its documentation |
| `Parity.NextIsLarger` | benchmarks/python/bench_jl_performance.py:399-420 | the successor bit pattern has a strictly larger value, also across binades and out of the subnormals |
| `Parity.SpacingDoubles` | benchmarks/python/bench_jl_performance.py:399-420 | from zero on, neighbouring doubles are one unit apart in the subnormals and the first binade, twice as far in each binade after |
| `Parity.SuccessorClosesGap` | benchmarks/python/bench_jl_performance.py:399-420 | strictly below the successor is at or below the cutoff, for all doubles |
| `Parity.JuliaMinAbsCoeff` | benchmarks/python/bench_c_deep_trotter.py:941-957 | a negative or zero cutoff is refused; otherwise a cutoff below which lies exactly what is at or below the given one |
| `Parity.CheckParity` | benchmarks/python/bench_jl_performance.py:356-380 | no problem exactly when the same counts were reported; otherwise which problem |
| `Parity.LayerCountAt` | benchmarks/python/bench_c_deep_trotter.py:1169-1215 | entry `i` of the counts is the number of terms after `i + 1` gates, the last gate first |
| `Parity.RulesMean` | benchmarks/python/bench_jl_performance.py:399-406 | one engine keeps exactly what lies above its cutoff, the other also what lies at it |
| `Parity.GateKeeps` | benchmarks/python/bench_jl_performance.py:399-406 | after every gate of a run each engine holds exactly the merged nonzero rows on its side of the cutoff |
| `Parity.ShiftedRunsAgree` | benchmarks/python/bench_jl_performance.py:399-420 | for every circuit, observable and magnitude rounding both engines' truncated runs have identical sums and per-layer counts |
| `Parity.ParityLeg` | benchmarks/python/bench_c_deep_trotter.py:1169-1215 | running both engines with the shifted cutoff and comparing their layers never reports a problem |
| `Parity.UnshiftedRulesDiffer` | benchmarks/python/bench_jl_performance.py:399-406 | at one shared cutoff the rules differ exactly on coefficients at the cutoff |
| `Crossover.PairRatios` | benchmarks/python/bench_jl_performance.py:158-175 | the first non-positive runtime is reported; otherwise each ratio times the first runtime is the second |
| `Crossover.RatioMeans` | benchmarks/python/bench_jl_performance.py:158-175 | a ratio is above 1 exactly when the first engine was faster, below 1 exactly when the second was |
| `Crossover.MedianRank` | benchmarks/python/bench_jl_performance.py:147-155 | the median is the mean of the two middle values, each with at most its rank of values below it and more not above it |
| `Crossover.RankUnique` | benchmarks/python/bench_jl_performance.py:147-155 | those rank counts determine the middle values |
| `Crossover.AnalyzePairs` | benchmarks/python/bench_jl_performance.py:190-227 | no pairs, or the first bad runtime; otherwise the verdict names an engine exactly when it was strictly faster in every pair, with the median of the ratios |
| `Crossover.MedianSide` | benchmarks/python/bench_jl_performance.py:147-155 | the median lies strictly on the side of a bound where all values lie |
| `Crossover.AnalysisOnItsSide` | benchmarks/python/bench_jl_performance.py:190-227 | a sign-consistent configuration has its median strictly on its verdict's side of 1 |
| `Crossover.IndistinguishableZone` | benchmarks/python/bench_jl_performance.py:230-250 | none exactly when all are consistent; otherwise the tight span of the mixed ones, and how many there are |
| `Crossover.UsableLaws` | benchmarks/python/bench_jl_performance.py:277-280 | the consistent points, each as often, in order of size, equal sizes in input order |
| `Crossover.DirectionChange` | benchmarks/python/bench_jl_performance.py:298-312 | no bracket exactly when all consistent verdicts agree |
| `Crossover.CrossingBetween` | benchmarks/python/bench_jl_performance.py:314-319 | the interpolated crossover lies between its two bracketing sizes |
| `Crossover.ZeroOnLine` | benchmarks/python/bench_jl_performance.py:314-319 | the computed point is on the line through the two ends, at ordinate zero |
| `Crossover.CrossingUnique` | benchmarks/python/bench_jl_performance.py:314-319 | only one size satisfies that equation |
| `Crossover.InterpolateCrossover` | benchmarks/python/bench_jl_performance.py:253-331 | in every case the whole result: the zone, the note with its count or direction, the first bracket, a domain error exactly when one of its ends has no logarithm, the size at which the line through the two points in logarithms meets ratio 1, between its ends, and whether that falls in the zone |
| `MemoryModel.RefitValid` | benchmarks/python/bench_c_deep_trotter.py:900-928 | slope stays positive and base non-negative |
| `MemoryModel.RefitFromOne` | benchmarks/python/bench_c_deep_trotter.py:900-914 | no usable sample keeps the model; one keeps the slope and takes the least base, from the prior up, that covers it |
| `MemoryModel.RefitFromTwo` | benchmarks/python/bench_c_deep_trotter.py:915-928 | two keep the model unless size and footprint moved the same way; then the line passes through both, or starts at zero where that would need a negative base |
| `MemoryModel.UsableSplits` | benchmarks/python/bench_c_deep_trotter.py:902 | a sample is used exactly when its footprint is positive, in the order measured |
| `MemoryModel.ProjectedMonotone` | benchmarks/python/bench_c_deep_trotter.py:897-898 | projections grow with the term count and never fall below the base |
| `MemoryModel.ProjectedUnits` | benchmarks/python/bench_c_deep_trotter.py:897-898 | above the base, `2^30` times the projection is the slope times the terms |
| `MemoryModel.RefitCovers` | benchmarks/python/bench_c_deep_trotter.py:900-928 | a newly built model projects at least the measured memory at every sample it was built from |
| `MemoryModel.LastCovered` | benchmarks/python/bench_c_deep_trotter.py:900-928 | the last sample is covered exactly when size and footprint moved the same way or the old model covered it |
| `MemoryModel.EqualLegsUncovered` | benchmarks/python/bench_c_deep_trotter.py:916-918 | two legs of one size: after both, the loop's model still projects the first footprint, a tenth of the second |
| `MemoryModel.HistoryValid` | benchmarks/python/bench_c_deep_trotter.py:1874-1895 | every model in every history of legs is valid |
| `MemoryModel.HistoryCovers` | benchmarks/python/bench_c_deep_trotter.py:1887-1895 | in every history, a leg that yields a new model yields one covering every sample it was built from |
| `MemoryModel.RunLegs` | benchmarks/python/bench_c_deep_trotter.py:1874-1895 | the loop's model and samples are those of the history, and each leg ran exactly when the gate admitted it |
| `MemoryModel.LegStep` | benchmarks/python/bench_c_deep_trotter.py:1874-1895 | a skipped or unmeasured leg changes nothing; a measured one adds its sample and refits on all of them |
| `MemoryModel.HistorySettles` | benchmarks/python/bench_c_deep_trotter.py:1887-1895 | for an engine whose memory is affine in the terms, once two sizes have been measured the model is that engine, and stays so |
| `MemoryModel.GateIsExact` | benchmarks/python/bench_c_deep_trotter.py:1169-1175 | from then on a leg with known free memory runs if and only if its own footprint fits half of it |
| `MemoryModel.GateSafety` | benchmarks/python/bench_c_deep_trotter.py:862-880 | over every history of legs no admitted leg overruns the headroom, exactly when the prior's base and slope are at least the engine's |

## Left out

- Floating-point rounding, and the snapping of quarter turns: coefficients and angles are exact reals; only the cutoff comparison of `Parity` works on double bit patterns.
- Word packing: rows are bit sequences, so the lexicographic sort and the unique rows are ordered by bits rather than by 64-bit words; the merge is proved for every order that gives each key its own position, the one-word order among them.
- CausalCone.KickedIsing: the noiseless model only, with the normalized and colored edge list as input, because channel noise acts on coefficients and the cone does not depend on the order of the edges.
- Propagation.Propagate: the layers work on whole sums; bucketing, GPU layers, message exchange and the deferred truncation policies are not modelled.
- OleRanks.SameOwner: rows are arbitrary; their random draw and linear independence are not modelled, because the result holds for any rows.
- Cliffords.IdentityPadding: the draws are inputs, so their distribution is not modelled.
- `single_pauli_coefficients`, `support_size`, front positions and velocities: easy reads of the same sums.
- Singular values, entropies and Renyi spectra of the Schmidt matrix: opaque numerics.
- CliffordDense.PushIsConjugation: works with the circuit's matrix; `dense_state` and `dense_projector_state`, which build state vectors gate by gate, are not modelled.
- QASM parsing, the circuit split, angle evaluation, plotting, report writing, command lines and foreign processes.
