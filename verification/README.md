# A verified model of QubitOS

QubitOS is a control stack for quantum hardware: it optimises pulses (GRAPE), simulates open systems, schedules pulse
sequences against hardware and coherence limits, benchmarks with random Clifford circuits and records provenance. This
project models the parts of it where an algebraic law, a protocol invariant or a loop argument carries the weight, and
proves those laws for all inputs and all runs. `dafny verify dfyconfig.toml` checks everything.

Files follow the program's components:

- `ComplexNumbers`, `Matrices`, `LinearSolve`, `MatrixExponential`, `MatrixPolynomials`: complex matrices of any size,
  in-place Gaussian elimination with partial pivoting, Padé-13 with scaling and squaring, and what they compute.
- `Grape`, `GrapeOptimizer`, `GrapeAscent`: propagator chains, gradient, fidelity, the best-so-far optimiser loop and the
  direction of its steps.
- `Lindblad`, `LindbladFlow`, `Measurement`, `Positivity`, `Sme`, `Expectations`, `CarriedStep`: the GKSL right-hand side
  and RK4, the Itô step with its repairs, what its positivity checks mean, the adaptive slice loop, whole conditional
  trajectories, how observables move, and one slice worked out in full.
- `Feedback`, `FeedbackControl`: the Lyapunov law, the latency buffer and a whole feedback-controlled run.
- `Temporal`, `PulseSequences`, `PulseValidation`: the time grid, constraints, the decoherence budget, the sequence as a
  state machine, and the validation gate.
- `Gf2`, `CliffordTableaux`, `CliffordSampling`, `CliffordLayers`, `CliffordObjects`: tableaux over GF(2), their gates,
  sampling and randomised-benchmarking sequences, layer by layer, and the int8 array code.
- `Strings`, `Provenance`, `ProvenanceDiff`, `PulseDiff`, `BuiltTrees`, `DiffReports`: the Merkle tree, its builder, the
  structural diff, the dictionary form, what root hash and diff of two built trees say about their parts, and the exact
  changes reported.
- `Reals`, `Sequences`, `Wrappers`: small shared definitions.
- `ErrorBudgets`, `Sweep`: the error budget with its look-ahead, and the resumable noise sweep.

How the program is represented:

- A float is an exact `real`, a complex number a pair of reals. A comparison of norms is made on their squares.
  `sqrt`, `exp`, `sin`, `cos`, pi, the scaling exponent of `matrix_exp`, random draws, noise increments, SHA-256 and
  `json.dumps` are parameters; where a law needs something of them (a square root squares back, `exp` is monotone with
  `exp(0) = 1`, JSON text can be read back, digests contain no `|`) it is a precondition. SHA-256 is never assumed to be
  injective: the commitment theorem only asks that the two trees at hand exhibit no collision.
- Objects the program mutates are classes; loops over buffers work in place on arrays; each is proved equal to a
  function of its inputs or old state, and the laws are lemmas about those functions and over runs of them.
- "State" below means Hermitian with unit trace (`Measurement.IsState`). Positivity is separate: it is what the
  violation tests, the projection and the trajectory check are about (`Positivity.ViolationExactly`).
- int8 arithmetic in the tableau code is wrapped explicitly; a rejected operation (a raised exception or an `Err`) is an
  explicit result.

Results that differ from what the code's documentation says:

- Two of the fourteen Padé coefficients, the sixth and seventh, differ from the approximant's own in the eleventh digit;
  the others agree to double precision (`CoefficientsNearly`). Unitarity does not depend on them.
- `compose` announces "apply other first", but in the row convention it multiplies the tables in the opposite order
  (`ComposeRows`, `OrderMatters`); the documented order holds exactly when the two tables commute
  (`DocumentedOrderExactly`). Its sign bookkeeping makes `identity(n)` a right unit but not a left one
  (`LeftUnit` gives the exact condition), and composition is not associative on signs (`SignsDoNotAssociate`;
  `AssociativeExactly` gives the exact condition). The inverse and the RB sequences are exact all the same.
- `append` tests each listing of a qubit separately, so a pulse that lists a qubit twice can push it past the T2 block
  (`DuplicateListingBlocks`; `AppendBelowBlock` gives the exact condition). The look-ahead never consults T1, so an
  accepted append can already be blocked on T1 (`ShortT1Blocks`; `AppendBelowT1Block` gives the exact condition). Where
  T1 is at least T2 > 0 on every qubit, duplicate-free runs reach neither block (`RunNeverBlocks`).
- The step size carried between slices is at least min(dt_min, 1e-18), not dt_min. Accepted steps stay at dt_min or
  above except for the last one, which the end of the slice cuts; a slice entered at dt_min or above carries a step
  below it exactly when the time left for the last step was below dt_min, or below dt_min / 1.2 if that step was calm
  (`SliceSteps`). `EndsBelowFloor` is a slice that does this.
- The latency buffer rounds delay / dt to the nearest integer, while its documentation says it takes the integer part
  and the controller's that corrections are at least the delay old. `DelayReached` says exactly when each holds, and
  `RoundedDelays` shows both fail.
- `diff` keeps one child per (type, label): a changed pulse is reported exactly when no later pulse carries its label
  (`ReplacedPulseReported`), although the root hash always changes. For any two pulse lists it is silent exactly when
  their hashes agree as multisets, or both lists use the same labels with the same last hash under each
  (`PulsesSilentExactly`). `LikePulsesHideAnEdit` and `DroppedPulseHidden` are built trees with different root hashes and
  no reported change. The pulse order is not part of the root hash (`PulseOrderNotCommitted`).
- `can_append` agrees with `is_within_budget` for positive targets; at target 0 the clamp makes every sequence
  "within budget" while `can_append` still refuses (`LookAheadAgrees`). It ignores an attached DecoherenceBudget
  (`AttachedBudgetIgnored`); the answers then agree exactly when the inline and the attached error fall on the same side
  of what the other errors leave (`AttachedAgreesExactly`).
- A sweep that lists a method twice can depend on completion order (`RepeatedMethodDependsOnOrder`).
  `OrderIrrelevantExactly` says for given results when it does not, `OrderIrrelevantForAll` for all results: exactly
  when the repeated cells share their seed.
- The feedback energy adds up the sampled corrections. It exceeds that of the applied ones by the energy of the samples
  still in the latency buffer at the end, so the two agree exactly when those are zero (`EnergyOfSamples`).

## Model

| member | source | states |
|---|---|---|
| LinearSolve.SolveUnique | hal/src/grape/expm.rs:133-195 | when no pivot is negligible, the result X of elimination and back substitution satisfies A X = B and is the only matrix that does, for all sizes |
| LinearSolve.SolveFallback | hal/src/grape/expm.rs:166-170 | a negligible pivot makes the function return the identity |
| LinearSolve.SolvableInverse | hal/src/grape/expm.rs:133-195 | a matrix the elimination accepts has a two-sided inverse |
| LinearSolve.ExitMeansNegligibleColumn | hal/src/grape/expm.rs:146-170 | the early exit is taken exactly when every candidate pivot of the column is below the threshold |
| LinearSolve.StepKeeps | hal/src/grape/expm.rs:145-180 | one pivot swap and elimination step keeps the solution set of the augmented system, both ways |
| LinearSolve.ForwardKeeps | hal/src/grape/expm.rs:145-180 | so does the whole forward pass |
| LinearSolve.ForwardTriangular | hal/src/grape/expm.rs:145-180 | a completed forward pass is triangular with non-zero diagonal |
| LinearSolve.BackSubstituteSolves | hal/src/grape/expm.rs:182-194 | back substitution yields the unique solution of the triangular rows |
| LinearSolve.SolvableSame | hal/src/grape/expm.rs:133-195 | whether the fallback is taken depends on A only, not on the right-hand side |
| LinearSolve.FindPivot | hal/src/grape/expm.rs:146-155 | the scan returns the first row with the largest norm in the column |
| LinearSolve.SwapInPlace | hal/src/grape/expm.rs:157-164 | the swap exchanges two rows and nothing else |
| LinearSolve.EliminateInPlace | hal/src/grape/expm.rs:172-179 | the nested loops subtract from every lower row its multiple of the pivot row |
| LinearSolve.BackSubstituteInPlace | hal/src/grape/expm.rs:182-194 | the backward loops compute the specified solution |
| LinearSolve.SolveLinear | hal/src/grape/expm.rs:133-195 | the in-place algorithm computes the function whose laws are above |
| MatrixExponential.MatPowAdd | hal/src/grape/expm.rs:198-204 | matrix powers add, which makes repeated squaring a power of two |
| MatrixExponential.SquareRepeatedly | hal/src/grape/expm.rs:198-204 | s squarings give the power 2^s |
| MatrixExponential.PadeAdjoint | hal/src/grape/expm.rs:83-124 | for an anti-Hermitian argument the numerator is the adjoint of the denominator and the two commute |
| MatrixExponential.CayleyUnitary | hal/src/grape/expm.rs:83-124 | solving den X = num with commuting den = num^+ gives a unitary |
| MatrixExponential.PadeUnitary | hal/src/grape/expm.rs:83-124 | the Padé approximant of an anti-Hermitian matrix is unitary for any real coefficients, fallback included |
| MatrixExponential.MatrixExpUnitary | hal/src/grape/expm.rs:27-61 | matrix_exp of an anti-Hermitian matrix is unitary on both sides, for every size but 1, any coefficients and any scaling |
| MatrixExponential.ScalarExpUnitary | hal/src/grape/expm.rs:34-38 | the 1x1 branch is unitary exactly when the scalar exponential has norm one |
| MatrixPolynomials.SquaringUndoesScaling | hal/src/grape/expm.rs:50-63 | unscaled, the result is the approximant; k more halvings of 2^k a followed by k more squarings give the 2^k-th power, for every k and scaling |
| MatrixPolynomials.PadeSums | hal/src/grape/expm.rs:83-120 | numerator and denominator are the sums of c[k] a^k and (-1)^k c[k] a^k, k = 0..13 |
| MatrixPolynomials.PadeQuotient | hal/src/grape/expm.rs:83-124 | if elimination accepts the denominator, denominator times approximant is the numerator |
| MatrixPolynomials.PadeFallback | hal/src/grape/expm.rs:83-124 | otherwise the approximant is the identity |
| MatrixPolynomials.CoefficientsNearly | hal/src/grape/expm.rs:63-80 | which coefficients agree with the diagonal approximant of the exponential to 15 digits, and how far the two others are off |
| MatrixPolynomials.ComputeMatrixExp | hal/src/grape/expm.rs:27-62 | scaling, elimination and squaring compute the specified function |
| Grape.ProductSplit | hal/src/grape/optimize.rs:164-198 | a chain splits at any slice: backward[k] forward[k] is the total |
| Grape.ProductPerturb | hal/src/grape/optimize.rs:250-271 | replacing U_t by U_t + D changes the total by backward[t+1] D forward[t] exactly |
| Grape.ProductUnitary | hal/src/grape/optimize.rs:164-171 | a chain of unitaries is unitary |
| Grape.ChainPropagators | hal/src/grape/optimize.rs:164-171 | the loop computes the ordered product |
| Grape.ForwardChain | hal/src/grape/optimize.rs:175-185 | entry k is the product of the first k propagators |
| Grape.BackwardChain | hal/src/grape/optimize.rs:189-198 | entry k is the product of the propagators from k on |
| Grape.GramNonNegative | hal/src/grape/optimize.rs:203-213 | Tr(M^+ M) is real and non-negative, and zero only for M = 0 |
| Grape.OverlapBound | hal/src/grape/optimize.rs:203-213 | trace Cauchy-Schwarz for unitaries, with equality exactly up to a global phase |
| GrapeOptimizer.FidelityRange | hal/src/grape/optimize.rs:203-213 | the unclamped fidelity of unitaries lies in [1/(d+1), 1], the clamp changes nothing, and it is 1 exactly up to a phase |
| GrapeOptimizer.PropagatorUnitary | hal/src/grape/optimize.rs:137-161 | Hermitian drift and controls give unitary slice propagators |
| GrapeOptimizer.TotalFidelityRange | hal/src/grape/optimize.rs:137-213 | for any envelopes the total is unitary and its fidelity needs no clamp |
| GrapeOptimizer.GradientIsDerivative | hal/src/grape/optimize.rs:217-275 | along the code's propagator derivative the fidelity is a quadratic whose linear coefficient is the computed gradient entry |
| GrapeOptimizer.ComputePropagators | hal/src/grape/optimize.rs:137-161 | the loop computes one exponential per slice |
| GrapeOptimizer.ComputeGradients | hal/src/grape/optimize.rs:217-275 | both gradient vectors hold the specified entry for every slice |
| GrapeOptimizer.UpdatePulses | hal/src/grape/optimize.rs:113-117 | the in-place update adds the scaled gradient and nothing else |
| GrapeAscent.RatePositive | hal/src/grape/optimize.rs:281-310 | the learning rate is positive, and one half, one or three halves of its base |
| GrapeAscent.RateDecays | hal/src/grape/optimize.rs:281-310 | the base starts at 100 (d^2 + d) / 6 times the configured rate and shrinks by a thousandth per iteration |
| GrapeAscent.RateFollowsProgress | hal/src/grape/optimize.rs:281-310 | four rises in a row raise the rate by half, a fall halves it |
| GrapeAscent.AscendClimbs | hal/src/grape/optimize.rs:103-117 | to first order an iteration changes the fidelity by the rate times the summed squares of both gradients: never down, and not at all exactly when both vanish |
| GrapeAscent.PulsesDrive | hal/src/grape/optimize.rs:151-157 | each envelope moves the Hamiltonian along its own control, from the drift |
| GrapeOptimizer.Optimize | hal/src/grape/optimize.rs:35-133 | the returned fidelity is the maximum of the history and the fidelity of the returned unitary, which is the total of the returned envelopes; converged exactly at the target, else all iterations ran |
| Lindblad.DissipatorIncrement | hal/src/lindblad/dissipator.rs:20-44 | a dissipator is traceless for any rho, and Hermitian for a Hermitian one |
| Expectations.DissipatorExpectation | hal/src/lindblad/dissipator.rs:20-50 | Tr[A D[L](rho)] is the rate times Tr[(L^+ A L - A L^+ L / 2 - L^+ L A / 2) rho], for every observable A |
| Expectations.CommutatorExpectation | hal/src/lindblad/dissipator.rs:74-79 | for Hermitian A, H and rho the drive moves Tr[A rho] by 2 Im Tr[A H rho] |
| Lindblad.ComputeTotalDissipator | hal/src/lindblad/dissipator.rs:49-64 | the accumulating loop sums the dissipators |
| Lindblad.RhsIncrement | hal/src/lindblad/dissipator.rs:69-83 | the full right-hand side is traceless and keeps Hermiticity |
| Lindblad.Rk4Preserves | hal/src/lindblad/integrate.rs:96-116 | all four stages keep the trace exactly, and Hermiticity when H is Hermitian |
| LindbladFlow.RhsLinear | hal/src/lindblad/dissipator.rs:69-83 | the right-hand side is linear in the density matrix |
| LindbladFlow.DissipatorsAdd | hal/src/lindblad/dissipator.rs:48-64 | the dissipators of two operator lists add up; one operator contributes its own, or nothing if its size differs |
| LindbladFlow.Rk4IsTaylor | hal/src/lindblad/integrate.rs:95-116 | one step is the sum of dt^j / j! times the j-fold iterate of the right-hand side, j = 0..4 |
| LindbladFlow.EvolveSplit | hal/src/lindblad/integrate.rs:69-76 | evolving k + m steps is evolving k and then m; each step is that Taylor polynomial |
| Lindblad.EvolvePreserves | hal/src/lindblad/integrate.rs:69-90 | so does any number of steps |
| Lindblad.SolveLindblad | hal/src/lindblad/integrate.rs:30-90 | rejects exactly the invalid inputs, else returns the evolution, its stored trajectory and its metrics |
| Measurement.SymmetrizeHermitian | hal/src/sme/measurement.rs:62-64 | the symmetrised matrix is Hermitian; Hermitian matrices are fixed; the trace keeps its real part |
| Measurement.RenormalizeState | hal/src/sme/measurement.rs:67-73 | a renormalised Hermitian matrix is a unit-trace Hermitian one |
| Measurement.InnovationIncrement | hal/src/sme/measurement.rs:36-46 | for Hermitian rho with unit trace, H[c]rho is Hermitian and traceless |
| Expectations.InnovationExpectation | hal/src/sme/measurement.rs:36-46 | Tr[A H[c](rho)] is Tr[(A c + c^+ A) rho] minus the product of the two expectations |
| Measurement.SuperoperatorAccepts | hal/src/sme/measurement.rs:36-46 | so its own validation never fails on such a rho |
| Measurement.StateEigenvalues | hal/src/sme/measurement.rs:222-233 | the eigenvalue bounds of a unit-trace 2x2 matrix are (1 -+ r)/2 with r its Bloch radius |
| Measurement.StabilityIsNegativity | hal/src/sme/measurement.rs:109-114 | the stability metric of a Hermitian 2x2 matrix with unit trace is twice its negative eigenvalue |
| Measurement.ProjectionRepairs | hal/src/sme/measurement.rs:76-101 | a projected 2x2 matrix is Hermitian with unit trace, in the Bloch ball and without violation; such matrices in the ball are fixed |
| Measurement.ProjectionKeepsDirection | hal/src/sme/measurement.rs:76-101 | the projection divides the Bloch vector by its length when that exceeds one |
| Positivity.LowestValue | hal/src/sme/measurement.rs:222-232 | for a Hermitian 2x2 matrix m and every vector v, v^+ m v is at least the lower eigenvalue bound times the squared length of v |
| Positivity.LowestAttained | hal/src/sme/measurement.rs:222-232 | and some non-zero vector attains it |
| Positivity.ViolationExactly | hal/src/sme/measurement.rs:123-133 | a positivity violation is reported exactly when some vector has v^+ m v below -atol times its squared length |
| Positivity.BallIsPositive | hal/src/sme/measurement.rs:76-101 | a Hermitian matrix with unit trace is positive semidefinite exactly when its Bloch vector is in the unit ball |
| Positivity.ProjectedIsPositive | hal/src/sme/measurement.rs:76-101 | so the projection always returns a positive semidefinite matrix with unit trace |
| Sme.RawStateIsState | hal/src/sme/integrate.rs:73-79 | any increment dW keeps the raw state Hermitian with unit trace |
| Expectations.MeanIsLindblad | hal/src/sme/integrate.rs:73-79 | averaged over dW and -dW the raw matrix moves every expectation by dt along the Lindblad right-hand side; the two differ by 2 dW sqrt(eta) times the innovation |
| Expectations.SignalIsExpectation | hal/src/sme/integrate.rs:33-97 | the recorded signal times dt, less dW, is dt sqrt(eta) times the measured expectation |
| Sme.StepKeepsState | hal/src/sme/integrate.rs:33-97 | from a Hermitian matrix with unit trace the step's repairs are no-ops, it fails only if a violation must be projected outside dimension 2, and a projected result has none left |
| Sme.StatePasses | hal/src/sme/trajectory.rs:337 | in dimension 2, with projection and a tolerance of at most 1e-6, the result of a step always passes the trajectory check |
| Sme.RejectionCount | hal/src/sme/trajectory.rs:22 | twelve halvings in a row reach the floor |
| Sme.IntegrateNominalSlice | hal/src/sme/trajectory.rs:298-365 | the loop is the iterated pass SliceRun and terminates for every verdict sequence; at most 12 rejections precede an accepted step; the steps fill the slice to 1e-18; with m the smaller of dt_min and the entry step, every accepted step but a last cut is at least m, and a carried step below m means the slice was used up exactly; from an entry step of at least dt_min there are at most 4096 steps, and the carried step is below dt_min exactly when the last cut was; every stored matrix is Hermitian with unit trace and passed the trajectory check; with sufficient projection in dimension 2 it never fails |
| Sme.SliceRunEndsOnce | hal/src/sme/trajectory.rs:316-353 | the pass on which the loop ends and the state it ends in are determined by the inputs |
| Sme.SliceSteps | hal/src/sme/trajectory.rs:316-353 | a slice entered with a step of at least dt_min accepts at most 4096 steps, all but the last at least dt_min; it carries a step below dt_min exactly when the time left for its last step was below dt_min (dt_min / 1.2 if calm), and then that step used it up |
| CarriedStep.KickedStep | hal/src/sme/integrate.rs:33-97 | what one step from the ground state returns for every increment of a transverse measurement: matrix, stability metric, violation |
| CarriedStep.EndsBelowFloor | hal/src/sme/trajectory.rs:298-365 | a concrete slice of 20 draws, each increment within an eighth of the square root of its step, that ends with a carried step below dt_min |
| Sme.SolveZeroEfficiency | hal/src/sme/trajectory.rs:230-287 | fails exactly for a non-square operator, else reports the Lindblad states, equal steps and a zero record |
| Sme.RunSlices | hal/src/sme/trajectory.rs:59-93 | the slices form one chain, each starting at the matrix, step size and draw the one before ended with; histories are their concatenation |
| Sme.SolveSmeTrajectory | hal/src/sme/trajectory.rs:25-119 | a run that starts and projects sufficiently in dimension 2, or has zero efficiency, succeeds; it is the chain of slices from the validated initial matrix, ends Hermitian with unit trace, its steps cover the schedule; record, trajectory, purity and fidelity histories and violations are those of its slices, and the maxima of trace deviation and residue are zero; with zero efficiency it is the Lindblad run |
| Feedback.CorrectionOpposes | hal/src/feedback/lyapunov.rs:198-244 | with non-negative gains each correction, clamped or not, opposes its projection and vanishes only with the product |
| Feedback.CorrectionSaturates | hal/src/feedback/lyapunov.rs:230-245 | with a cap the correction is the raw value, or the end of the interval it lies beyond |
| Feedback.RateShift | hal/src/lindblad/dissipator.rs:69-83 | the correction shifts the rate of V by the weighted sum of the projections |
| Feedback.FeedbackDescends | hal/src/feedback/lyapunov.rs:198-244 | the correction never raises the rate of V, and lowers it strictly unless it is zero |
| Feedback.DiagonalMatrixPath | hal/src/feedback/lyapunov.rs:136-142 | the full-matrix path with a diagonal K gives the diagonal path's corrections |
| Feedback.CanonicalBasisProjections | hal/src/feedback/lyapunov.rs:250-267 | the array holds the three axis projections |
| Feedback.FeedbackCorrection | hal/src/feedback/lyapunov.rs:198-244 | fails exactly on shape or configuration errors, else returns the specified corrections |
| Feedback.FeedbackDelayBuffer.Tick | core/src/qubitos/feedback/controller.py:461-467 | over any run of ticks, returns the sample of depth ticks ago, or zero before that |
| Feedback.DelayReached | core/src/qubitos/feedback/controller.py:443-460 | the age of an applied correction is within half a step of the delay; it reaches the delay exactly when the quotient is not rounded down, and the depth is its integer part exactly when it is not rounded up |
| Feedback.RoundedDelays | core/src/qubitos/feedback/controller.py:443-460 | delays of 1.4 and 1.6 steps give depths 1 and 2 |
| FeedbackControl.ControlledHermitian | core/src/qubitos/feedback/controller.py:248-250 | the corrected Hamiltonian of a slice stays Hermitian |
| FeedbackControl.AccumulateFeedbackDelay | core/src/qubitos/feedback/controller.py:150-171 | the budget is charged exactly when the look-ahead accepts, and then stays below its block fraction |
| FeedbackControl.TimesAfterTotal | core/src/qubitos/feedback/controller.py:252-260 | k charges add k delays to the qubit |
| FeedbackControl.UndelayedDescends | core/src/qubitos/feedback/controller.py:243-250 | without latency the drive applied in a slice never raises the rate of V at its start |
| FeedbackControl.DriveSlice | core/src/qubitos/feedback/controller.py:243-250 | fails exactly when V is out of range, else samples, delays and applies the correction of one slice |
| FeedbackControl.SolveWithFeedback | core/src/qubitos/feedback/controller.py:174-336 | the run is the chain of slices in which slice k is driven by its baseline plus the correction sampled depth slices before at that slice's start; from a valid initial matrix it stops early only on V out of range or on a refused charge; when it finishes every charge fitted, the energy is that of the samples, the steps cover the schedule, and the histories and maxima are those of its slices |
| FeedbackControl.EnergyOfSamples | core/src/qubitos/feedback/lyapunov.py:291-309 | the energy exceeds that of the applied corrections by that of the samples left in the buffer; they agree exactly when those are zero |
| Temporal.QuantizedOnGrid | hal/src/temporal/types.rs:67-135 | an AWG-quantised duration is a fixed point of the grid with a sample count inside the limits |
| Temporal.QuantizedNear | hal/src/temporal/types.rs:67-69 | a quantised time is within half a step of the nominal one |
| Temporal.QuantizedNearest | hal/src/temporal/types.rs:121-125 | inside the clock's limits the quantised duration is within half a sample of the request, outside it is the nearer limit |
| Temporal.NewConstraintExact | hal/src/temporal/constraints.rs:74-104 | construction succeeds exactly for a non-negative tolerance, two different pulses and, if aligned, a fraction strictly between 0 and 1 |
| Temporal.CheckMeaning | hal/src/temporal/constraints.rs:112-197 | for all five kinds: a check with jitter passes exactly when the bare condition holds for some timing error within the jitter, for a minimum gap for every one |
| Temporal.MinGapSeparates | hal/src/temporal/constraints.rs:178-197 | what an accepted minimum gap means for the two pulses, and exactly when it is accepted |
| Temporal.CanAddExact | hal/src/temporal/budget.rs:211-221 | the look-ahead is the T2 test on the state after add_time |
| Temporal.BlockReported | hal/src/temporal/budget.rs:153-209 | a block is reported for exactly the tracked qubits whose fraction reaches the limit |
| Temporal.WarningReported | hal/src/temporal/budget.rs:153-209 | a warning is reported exactly between the two limits |
| PulseSequences.RunKeepsInvariant | hal/src/temporal/sequence.rs:106-193 | over every run ids stay unique, budgets equal the summed quantised durations, constraints hold, and durations are on the grid |
| PulseSequences.AppendStores | hal/src/temporal/sequence.rs:106-162 | an accepted append stores the requested start and a duration as near as the clock allows, and charges it once per listing |
| PulseSequences.RunIssues | hal/src/temporal/sequence.rs:199-270 | after any run validate reports no constraint or unknown-pulse issue, and no T2 block when appended qubit lists have no repeats |
| PulseSequences.AppendBelowBlock | hal/src/temporal/sequence.rs:106-162 | an accepted append stays below the T2 block exactly when the whole charge to each listed qubit would be accepted |
| PulseSequences.RunBelowBlock | hal/src/temporal/sequence.rs:106-162 | duplicate-free appends never reach the T2 block |
| PulseSequences.DuplicateListingBlocks | hal/src/temporal/sequence.rs:132-152 | a qubit listed twice passes the test and is then blocked |
| PulseSequences.ShortT1Blocks | hal/src/temporal/budget.rs:211-221 | an accepted append can be blocked on T1 |
| PulseSequences.AppendBelowT1Block | hal/src/temporal/sequence.rs:106-162 | an accepted append stays below the T1 block exactly when every listed qubit fits its whole charge under its T1 |
| PulseSequences.T1BelowT2 | hal/src/temporal/budget.rs:121-138 | where T1 is at least T2 > 0, the T1 fraction is at most the T2 fraction |
| PulseSequences.RunBelowT1Block | hal/src/temporal/sequence.rs:106-162 | on such qubits duplicate-free runs never reach the T1 block |
| PulseSequences.RunNeverBlocks | hal/src/temporal/sequence.rs:220-260 | so validate reports no block after such a run |
| PulseSequences.OverlapsReported | hal/src/temporal/sequence.rs:241-267 | an overlap is reported exactly for pairs that share a qubit and intersect in time |
| PulseSequences.CleanMeansDisjoint | hal/src/temporal/sequence.rs:199-270 | a clean sequence has no clash between any two pulses |
| PulseSequences.DecoherenceBudget.AddQubitTime | hal/src/temporal/budget.rs:114-116 | adds the time to one qubit only |
| PulseSequences.DecoherenceBudget.CheckAll | hal/src/temporal/budget.rs:153-209 | the loop reports the specified messages in qubit order |
| PulseSequences.PulseSequence.AppendPulse | hal/src/temporal/sequence.rs:106-162 | the mutating append is the specified step; a rejected one changes nothing |
| PulseSequences.PulseSequence.AddTemporalConstraint | hal/src/temporal/sequence.rs:173-193 | the same for constraints |
| PulseSequences.PulseSequence.CheckConstraints | hal/src/temporal/sequence.rs:202-234 | the constraint loop lists the specified issues |
| PulseSequences.PulseSequence.CheckOverlaps | hal/src/temporal/sequence.rs:241-267 | the nested overlap loop lists the specified issues |
| PulseSequences.PulseSequence.Validate | hal/src/temporal/sequence.rs:199-270 | validate returns constraint, budget and overlap issues in order |
| PulseValidation.PackingBound | hal/src/temporal/sequence.rs:241-288 | pairwise disjoint intervals inside a span have total length at most the span |
| PulseValidation.AcceptedPacks | hal/src/validation/mod.rs:351-386 | in an accepted sequence each involved qubit's summed duration is at most the total duration, which is at most the limit |
| PulseValidation.UntouchedQubit | hal/src/validation/mod.rs:351-386 | a qubit no pulse names has no duration |
| PulseValidation.RunFits | hal/src/validation/mod.rs:351-386 | for accepted runs the budgeted time of each tracked qubit obeys the same bound |
| PulseValidation.ComputeTotalDurationNs | hal/src/temporal/sequence.rs:273-288 | the fold is latest end minus earliest start |
| PulseValidation.DurationTight | hal/src/temporal/sequence.rs:273-290 | the total duration is the largest distance from a start to an end, and is attained |
| PulseValidation.ValidatePulseSequence | hal/src/validation/mod.rs:351-386 | the checks in order, with early return, on the object's state |
| CliffordTableaux.InverseTableLaws | core/src/qubitos/calibrator/cliffords.py:122-135 | Omega S^T Omega is a two-sided inverse of a symplectic table, symplectic, and inverting it gives S back |
| CliffordTableaux.SymplecticDot | core/src/qubitos/calibrator/cliffords.py:93-94 | compose keeps tables symplectic |
| CliffordTableaux.Polar | core/src/qubitos/calibrator/cliffords.py:112-118 | the pair count is a quadratic form whose polar form is the symplectic product |
| CliffordTableaux.WeightedPairs | core/src/qubitos/calibrator/cliffords.py:96-118 | the pair counts of the inverse's rows, weighted by a row of S, sum to that row's own |
| CliffordTableaux.InverseExact | core/src/qubitos/calibrator/cliffords.py:122-151 | composing a symplectic tableau with its inverse on either side is the identity, signs included, and inverting twice is exact |
| CliffordTableaux.RightUnit | core/src/qubitos/calibrator/cliffords.py:73-120 | identity(n) is a right unit, signs included |
| CliffordTableaux.LeftUnit | core/src/qubitos/calibrator/cliffords.py:73-120 | as a left unit it works exactly when every row has an even pair count |
| CliffordTableaux.TablesAssociate | core/src/qubitos/calibrator/cliffords.py:93-94 | tables associate |
| CliffordTableaux.AssociativeExactly | core/src/qubitos/calibrator/cliffords.py:83-120 | composition associates, signs included, exactly when the two sign corrections agree on every row |
| CliffordSampling.HadamardSymplectic | core/src/qubitos/calibrator/cliffords.py:403-418 | the Hadamard table is symplectic |
| CliffordSampling.PhaseSymplectic | core/src/qubitos/calibrator/cliffords.py:421-436 | the phase-gate table is symplectic |
| CliffordSampling.CnotSymplectic | core/src/qubitos/calibrator/cliffords.py:439-454 | the CNOT table is symplectic |
| CliffordSampling.ReachableSymplectic | core/src/qubitos/calibrator/cliffords.py:83-151 | every tableau built from gates by compose and inverse is symplectic |
| CliffordSampling.ReachableInverse | core/src/qubitos/calibrator/cliffords.py:83-151 | so all of them have exact two-sided inverses |
| CliffordSampling.SignsDoNotAssociate | core/src/qubitos/calibrator/cliffords.py:96-118 | the phase gate shows that identity is no left unit and signs do not associate |
| CliffordSampling.ComposeRows | core/src/qubitos/calibrator/cliffords.py:83-94 | row i of a composite is the image under other of row i of self |
| CliffordSampling.OrderMatters | core/src/qubitos/calibrator/cliffords.py:83-94 | Hadamard and phase gate do not commute, so that order differs from the documented one |
| CliffordSampling.DocumentedOrderExactly | core/src/qubitos/calibrator/cliffords.py:83-94 | the documented order holds exactly when the tables commute |
| CliffordSampling.SampleSymplectic | core/src/qubitos/calibrator/cliffords.py:308-361 | every sample is symplectic, for any draws |
| CliffordLayers.LayerRows | core/src/qubitos/calibrator/cliffords.py:340-360 | entry by entry, draw 0 exchanges rows q and n+q, draw 1 adds row n+q to row q, draw 2 adds row target to control and n+control to n+target; nothing else changes |
| CliffordLayers.LayerSigns | core/src/qubitos/calibrator/cliffords.py:340-360 | every applied gate flips the signs of exactly the rows with an odd number of X Z pairs |
| CliffordLayers.SampleBits | core/src/qubitos/calibrator/cliffords.py:308-361 | a sample is the identity after 4 n^2 + 10 such layers, with the draws each takes |
| CliffordLayers.RbSamples | core/src/qubitos/calibrator/cliffords.py:364-395 | every entry of the RB list but the last is a sample drawn where the one before stopped |
| CliffordSampling.RbIdentity | core/src/qubitos/calibrator/cliffords.py:364-395 | for any size, length and draws the RB list composes to exactly the identity tableau |
| CliffordObjects.WrapKeepsParity | core/src/qubitos/calibrator/cliffords.py:94 | int8 wrap-around never changes a value's parity |
| CliffordObjects.MatMul8 | core/src/qubitos/calibrator/cliffords.py:94 | the wrapped int8 matrix product is congruent to the GF(2) product |
| CliffordObjects.CliffordTableau.Checked | core/src/qubitos/calibrator/cliffords.py:66-71 | construction fails exactly on wrong shapes; the object stands for a tableau exactly when the arrays hold its bits |
| CliffordObjects.CliffordTableau.MakeIdentity | core/src/qubitos/calibrator/cliffords.py:73-81 | the arrays hold the identity tableau |
| CliffordObjects.CliffordTableau.ComposePhase | core/src/qubitos/calibrator/cliffords.py:98-118 | the inner loops compute the specified sign of one row |
| CliffordObjects.CliffordTableau.ComposeWith | core/src/qubitos/calibrator/cliffords.py:83-120 | the array code computes compose; it fails exactly on different qubit counts |
| CliffordObjects.CliffordTableau.MakeInverse | core/src/qubitos/calibrator/cliffords.py:122-151 | the array code computes the inverse, patched phases included |
| CliffordObjects.MakeHadamard | core/src/qubitos/calibrator/cliffords.py:403-418 | the in-place row swap builds the Hadamard tableau |
| CliffordObjects.MakePhase | core/src/qubitos/calibrator/cliffords.py:421-436 | one cell write builds the phase gate |
| CliffordObjects.MakeCnot | core/src/qubitos/calibrator/cliffords.py:439-454 | two cell writes build the CNOT |
| CliffordObjects.SampleRandomClifford | core/src/qubitos/calibrator/cliffords.py:308-361 | the sampling loop computes the specified sample and uses the specified draws |
| CliffordObjects.GenerateRbSequence | core/src/qubitos/calibrator/cliffords.py:364-395 | the list built by the loop is the sequence RbIdentity is about |
| Strings.SortCanonical | core/src/qubitos/provenance/builder.py:52 | sorting hashes forgets their order and nothing else |
| Strings.JoinInjective | core/src/qubitos/provenance/builder.py:53 | joining separator-free words can be undone |
| Provenance.LeafPayloadInjective | core/src/qubitos/provenance/builder.py:43-47 | a leaf payload determines type and content |
| Provenance.InternalPayloadInjective | core/src/qubitos/provenance/builder.py:50-54 | an internal payload determines type and multiset of child hashes |
| Provenance.PayloadsDisjoint | core/src/qubitos/provenance/builder.py:43-54 | no leaf payload is an internal payload |
| Provenance.HashCommits | core/src/qubitos/provenance/builder.py:43-54 | equal hashes of consistent trees mean equal trees up to sibling order and labels, unless the two trees exhibit a collision |
| Provenance.ShapeDeterminesHash | core/src/qubitos/provenance/builder.py:43-54 | conversely the hash depends on nothing else |
| Provenance.RootConsistent | core/src/qubitos/provenance/builder.py:434-523 | every node of a built tree carries its own hash |
| Provenance.PulseOrderNotCommitted | core/src/qubitos/provenance/builder.py:446-453 | reordering the pulses leaves the root hash unchanged |
| BuiltTrees.RootCommitsToParts | core/src/qubitos/provenance/builder.py:434-523 | absent a collision, two built trees have one root hash exactly when calibration, pulses, configuration, drift events, recalibrations and benchmarks agree part by part, up to order and labels |
| Provenance.ProvenanceBuilder.SetCalibration | core/src/qubitos/provenance/builder.py:144-196 | stores the calibration subtree and keeps all nodes consistent |
| Provenance.ProvenanceBuilder.AddPulse | core/src/qubitos/provenance/builder.py:221-267 | appends one pulse leaf |
| Provenance.ProvenanceBuilder.Build | core/src/qubitos/provenance/builder.py:434-523 | fails exactly without calibration, else returns the specified consistent tree |
| ProvenanceDiff.DiffComplete | core/src/qubitos/provenance/tree.py:85-174 | for consistent trees of one root type with distinct siblings, diff reports no change exactly when the hashes are equal |
| ProvenanceDiff.AllKeysAscending | core/src/qubitos/provenance/tree.py:138-142 | the keys are visited in ascending order without repetition |
| ProvenanceDiff.ReplacementSeen | core/src/qubitos/provenance/tree.py:138-150 | a replaced child is seen exactly when it is the last of its type and label and is itself seen |
| ProvenanceDiff.ReplacementReported | core/src/qubitos/provenance/tree.py:138-150 | among repeated siblings, replacing a child by another hash is reported exactly when no later sibling shares its type and label |
| ProvenanceDiff.ReplacedPulseChangesRoot | core/src/qubitos/provenance/tree.py:85-103 | absent a collision, a changed pulse changes every hash up to the root |
| ProvenanceDiff.ReplacedPulseReported | core/src/qubitos/provenance/tree.py:85-174 | between two built trees that differ in one pulse, diff reports a change exactly when no later pulse carries its label |
| ProvenanceDiff.LikePulsesHideAnEdit | core/src/qubitos/provenance/tree.py:138-150 | two built trees with different root hashes and no reported change |
| DiffReports.ReplacedPulseExactly | core/src/qubitos/provenance/tree.py:85-174 | replacing the last pulse of a label is reported as that one change, with its path, both short hashes and both contents |
| DiffReports.DiffMirrored | core/src/qubitos/provenance/tree.py:85-174 | exchanging the trees exchanges old and new, added and removed, change by change in the same order |
| PulseDiff.PulsesSilent | core/src/qubitos/provenance/tree.py:85-174 | two built trees that differ in their pulse lists: diff is silent exactly when the root hashes agree or the last hash under every label does |
| PulseDiff.SameRootExactly | core/src/qubitos/provenance/tree.py:85-103 | absent a collision, the root hashes agree exactly when the pulse hashes agree as multisets |
| PulseDiff.PulsesSilentExactly | core/src/qubitos/provenance/tree.py:85-174 | so diff is silent exactly when the pulse hashes agree as multisets or the last hash under every label agrees |
| PulseDiff.DroppedPulseHidden | core/src/qubitos/provenance/tree.py:138-150 | dropping the first of two like-named pulses changes the root hash and is not reported |
| ProvenanceDiff.DiffRecursive | core/src/qubitos/provenance/tree.py:105-174 | the recursive procedure appends exactly the specified changes and labels |
| ProvenanceDiff.DiffTrees | core/src/qubitos/provenance/tree.py:85-103 | the top-level shortcut changes nothing |
| ProvenanceDiff.NodeRoundTrip | core/src/qubitos/provenance/tree.py:222-262 | reading back a written node always succeeds, and is exact exactly when no internal node holds content |
| ProvenanceDiff.TreeRoundTrip | core/src/qubitos/provenance/tree.py:212-244 | the same for whole trees with timestamp and metadata |
| ProvenanceDiff.ConsistentRoundTrip | core/src/qubitos/provenance/tree.py:212-262 | so every hash-consistent tree survives the round trip |
| ErrorBudgets.ApplyNeverHelps | core/src/qubitos/error_budget/__init__.py:147-301 | no add_* call lowers the projected infidelity |
| ErrorBudgets.RunNeverHelps | core/src/qubitos/error_budget/__init__.py:147-301 | over any run the projected fidelity only falls; a sequence out of budget stays out |
| ErrorBudgets.TimeNeverHelps | core/src/qubitos/error_budget/__init__.py:362-373 | more time on a qubit never lowers the decoherence error |
| ErrorBudgets.TimesCharged | core/src/qubitos/error_budget/__init__.py:147-304 | which qubits an operation charges and how much: a two-qubit gate both of its own |
| ErrorBudgets.CrosstalkQuadratic | core/src/qubitos/error_budget/__init__.py:243-271 | x times the coupling or the duration gives x^2 times the crosstalk error |
| ErrorBudgets.LeakageQuadratic | core/src/qubitos/error_budget/__init__.py:273-304 | x times the drive gives x^2 times the leakage error |
| ErrorBudgets.ContributionUnits | core/src/qubitos/error_budget/__init__.py:225-304 | what counts as an error of one; the readout error is what the readout fidelity leaves |
| ErrorBudgets.DecoherenceChannels | core/src/qubitos/error_budget/__init__.py:362-374 | the decoherence error is the sum of a T1 and a T2 part |
| ErrorBudgets.EqualGatesAddCoherently | core/src/qubitos/error_budget/__init__.py:313-330 | n equal gates add n e incoherently and the coherent fraction of n^2 e |
| ErrorBudgets.LookAheadAgrees | core/src/qubitos/error_budget/__init__.py:443-507 | without an attached budget can_append implies is_within_budget after add_gate, and the two agree exactly when the target is positive or the error is at most one |
| ErrorBudgets.LookAheadIsSafe | core/src/qubitos/error_budget/__init__.py:443-507 | an accepted look-ahead means the budget was not already exceeded |
| ErrorBudgets.AttachedBudgetIgnored | core/src/qubitos/error_budget/__init__.py:344-346 | an attached budget can make the two answers differ |
| ErrorBudgets.AttachedAgreesExactly | core/src/qubitos/error_budget/__init__.py:443-507 | with an attached budget the answers agree exactly when inline and attached error fall on the same side of the slack; an attached error below the inline one makes a positive answer sound |
| ErrorBudgets.ErrorBudget.Make | core/src/qubitos/error_budget/__init__.py:139-143 | construction fails exactly outside [0, 1] |
| ErrorBudgets.ErrorBudget.Add | core/src/qubitos/error_budget/__init__.py:147-301 | a rejected call changes nothing; an accepted one is the specified step and never helps |
| ErrorBudgets.ErrorBudget.Reset | core/src/qubitos/error_budget/__init__.py:525-528 | clears contributions and times |
| ErrorBudgets.ErrorBudget.DecoherenceAhead | core/src/qubitos/error_budget/__init__.py:478-497 | the one-pass sum with a replaced time equals the sum after the update, for tracked and new qubits |
| ErrorBudgets.ErrorBudget.CanAppend | core/src/qubitos/error_budget/__init__.py:443-507 | equals is_within_budget after the same add_gate, for a positive target, valid arguments and no attached budget |
| ErrorBudgets.ErrorBudget.IsWithinBudget | core/src/qubitos/error_budget/__init__.py:305-416 | the property's sums compute the specified predicate |
| Sweep.SeedIndexInjective | core/src/qubitos/feedback/analysis.py:102-108 | no two cells share a seed |
| Sweep.SeedIndexCovers | core/src/qubitos/feedback/analysis.py:102-108 | every spawned seed belongs to a cell |
| Sweep.SpawnCellSeeds | core/src/qubitos/feedback/analysis.py:86-108 | fails exactly for an empty grid, else puts child m * n_noise + j at (m, j) |
| Sweep.DistinctAgree | core/src/qubitos/feedback/analysis.py:367-377 | with distinct methods no two cells write the same place |
| Sweep.ResumeDeterministic | core/src/qubitos/feedback/analysis.py:487-582 | any completion order, after any number of interrupted runs, gives the arrays of one uninterrupted run |
| Sweep.FinishedEntries | core/src/qubitos/feedback/analysis.py:367-394 | entry (method, j) of a finished sweep is the simulation of that method at noise level j with the cell's own seed |
| Sweep.OrderIrrelevantExactly | core/src/qubitos/feedback/analysis.py:517-582 | the completion order never shows exactly when cells that share a place agree |
| Sweep.OrderIrrelevantForAll | core/src/qubitos/feedback/analysis.py:517-582 | it never shows for any cell results exactly when cells that share a place share their seed |
| Sweep.RepeatedMethodDependsOnOrder | core/src/qubitos/feedback/analysis.py:517-582 | a method listed twice whose result depends on the order |
| Sweep.SweepContext.ApplyCell | core/src/qubitos/feedback/analysis.py:367-394 | stores one result in its row and writes its checkpoint |
| Sweep.SweepContext.CheckpointLoad | core/src/qubitos/feedback/analysis.py:487-514 | loads exactly the usable files and returns exactly their cells |
| Sweep.SweepContext.BuildPending | core/src/qubitos/feedback/analysis.py:705-710 | lists exactly the cells not done, noise index outermost |
| Sweep.SweepContext.Run | core/src/qubitos/feedback/analysis.py:694-716 | a call performs one possible attempt; if it is not cut short the attempt is a finished one |

## Left out

- Floating-point rounding, NaN and infinity checks: all arithmetic is exact.
- That Padé-13 approximates the exponential, and the choice of the scaling exponent from the 1-norm: the exponent is a parameter, and so is the scalar exponential of the 1x1 branch.
- The overflow of the 64-bit shift in the scaling of `matrix_exp` for very large exponents.
- MatrixExponential.MatrixExpUnitary: excludes dimension 1, where the result is the exponential of one number; ScalarExpUnitary states what is needed there.
- Claims about states (Sme, Measurement) ask for Hermitian Hamiltonians, as physical inputs are; the trace laws do not.
- PulseSequences.PulseSequence.AppendPulse: two sequences sharing one budget object are not modelled; the program's sequence owns its budget.
- PulseSequences.RunIssues: says nothing against T1 blocks, which do occur (ShortT1Blocks); RunNeverBlocks excludes them where T1 is at least T2.
- ProvenanceDiff.DiffComplete: asks for distinct siblings, because the law fails otherwise; ReplacementSeen and PulsesSilentExactly are the exact conditions for one replaced child and for any pulse lists.
- The canonical rounding of content values, envelope hashing and the text of change descriptions, labels and messages: content and labels are inputs.
- The metadata and timestamps the builder adds to a tree, which no hash covers.
- Partially written checkpoint files and checkpoint files of other inputs under the same tag: a file on disk holds the result of the cell in its name.
- The process pool and the event log of the sweep: only the order in which cells complete is modelled.
- Sme.SolveSmeTrajectory: does not repeat the final trace, purity, fidelity and step count, which are functions of what it reports.
- FeedbackControl.SolveWithFeedback: takes the resolved measurement operator and one baseline per slice as inputs, and leaves out the final check of the whole V trajectory, which only asks for finite values.
- The setters of the builder for the configuration, drift, recalibration and benchmarking leaves, which repeat AddPulse for other parts; the laws of the built tree hold for all parts.
- Ensembles, open-system GRAPE, unitary matrices of tableaux, fitting, tomography and single-qubit Clifford search: numerical libraries or thin loops over what is modelled.
- gRPC, REST, command line, configuration, bindings, back ends and plotting: plumbing.
- The Python scheduler of pulse sequences and the calibration loop: easy beside the above.
