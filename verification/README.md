# Verified models of the Stellar-K8s decision logic

Stellar-K8s is a Kubernetes operator. Most of its files are plumbing, but about a dozen of them hold
self-contained algorithms and protocols. This project models those in Dafny and proves what they promise, over all
inputs, all runs or all interleavings:

- **Regression bisection** (`RankSum`, `NoisySearch`, `Bisect`): a rank-sum test with average ranks for ties, a
  noisy binary search over commits, and its run budget.
- **Schema conversion** (`SchemaConversion`, `SchemaMeaning`, `SchemaNormalForm`, `SchemaCollisions`): the compiler
  from the Kubernetes OpenAPI dialect to JSON Schema, with a validity semantics for both sides.
- **Connection drain** (`DrainAtomic`, `DrainNecessity`, `DrainProtocol`): the shutdown protocol, once with single
  atomic operations as steps and once with whole methods as steps.
- **Audit chain** (`Decimals`, `Encoding`, `Merkle`, `AuditChain`): hash-linked records and Merkle checkpoints.
- **Federation** (`Federation`): generation vectors and the reconciliation of replicated states.
- **Release gate** (`CrdLint`, `CrdMeaning`, `Decimals`, `VersionText`, `ReleaseGate`): schema flattening, the compatibility
  report, and the version bump a change of resource definitions requires.
- **Autoscaler** (`Autoscaler`): smoothed indicators, cooldown and stabilization gates, caps, and their effect on runs.
- **Config reload** (`ConfigReload`): versioned snapshots under interleaved reload attempts and readers.
- **Canary promotion** (`Canary`): the phase machine and its three weight progressions.
- **Dependency gate** (`VersionText`, `DependencyGate`): version text, the contract suite, the matrix and the verdict.

`dafny verify dfyconfig.toml` checks everything.

## How the model reads the source

- Floating-point numbers are reals. Hashes, HMAC, the normal distribution, the square root, parsers, validators,
  white space, clocks, gate verdicts and benchmark runs are parameters, so every theorem holds whatever they answer.
- No theorem assumes that a hash is injective. Where a digest is said to pin its input, the alternative is an explicit
  pair of different inputs with one digest.
- Integers are unbounded unless their width matters: the drain counters wrap at 64 bits, canary weights at 32 bits,
  replica counts saturate at 32 bits, and version numbers must fit 64 bits.
- A loop in the source is a loop here, proved against a function or a predicate; an object that is updated in place is
  a class. Iteration over a hash map or a set takes its elements in an arbitrary order.

Where the code and its own documentation disagree, the model follows the code:

- The module comment of the bisection promises exactly ceil(log2 N) runs when no midpoint is noisy
  (src/benchmark_bisect.rs:26-27). The code makes between floor and ceiling, and both occur; the promise holds exactly
  when N is a power of two.
- A stream released "once" by the drain can be released twice when its guard is dropped between the load and the store
  of the straggler block (src/connection_drain.rs:238-248), when a stream is opened across it, or when two drains run
  it at the same time. Each of the three can make in_flight wrap around, and without them it never does.
- `dominates` is documented as "causally newer" but never looks at clusters present only in the other vector
  (src/federation_consistency.rs:61-76).
- "A previously optional field became required" is not reported inside array items, and a changed item type is not
  reported either (scripts/crd_migration_lint.py:33-55).
- The scan for the dominant indicator uses 1.0 both as a value and as "nothing found", and so can lose a maximum of
  exactly 1 (src/adaptive_hpa.rs:304-317).
- A gate's `violation_threshold` is documented as the number of consecutive violations before rollback
  (src/crd/progressive_delivery.rs:76-77). The code never reads it: every failed gate counts one violation, so a failed
  analysis always rolls back (src/canary_promotion_controller.rs:169-187, 280-286). The documented rule is met in every
  run exactly when no threshold is above one.
- `touches` is documented as "is or is under" a name but accepts any textual continuation of it
  (src/dependency_contract.rs:321-324), so removing `foo` blocks a consumer that only calls `foobar`.
- A linear canary progression adds its step in 32 bits before it clamps, so a sum in [2^32, 2^32 + 100) falls below
  full weight (src/canary_promotion_controller.rs:330).

## Model

| member | source | states |
|---|---|---|
| RankSum.SortPooled | src/benchmark_bisect.rs:106-111 | the pooled samples come out in ascending order and as a rearrangement of what went in, ties in any order |
| RankSum.BlockRank | src/benchmark_bisect.rs:120-120 | in a sorted pool the averaged rank of a block of ties is the mid-rank each member has in the whole pool |
| RankSum.RankLoop | src/benchmark_bisect.rs:113-123 | the tie-averaging loop adds up exactly the candidates' mid-ranks |
| RankSum.RankSumIsPairCount | src/benchmark_bisect.rs:101-124 | for every rearrangement the sort may leave, rank sum less n2(n2+1)/2 is the number of pairs with baseline below candidate plus half the ties |
| RankSum.PairCountsFillTheGrid | src/benchmark_bisect.rs:101-124 | U(a,b) + U(b,a) = n1 n2 |
| RankSum.CountByRanks | src/benchmark_bisect.rs:106-124 | sorting, ranking and taking off the smallest rank sum gives the pair count |
| RankSum.MannWhitneyP | src/benchmark_bisect.rs:101-130 | the p-value is the upper tail of the z-score of the pair count, and 1 for an empty side |
| RankSum.VarianceOfOneBaseline | src/benchmark_bisect.rs:124-128 | with one baseline sample the variance is the mean squared distance of the numbers 0..n from n/2, which the pair count takes equally often |
| RankSum.VarianceSymmetric | src/benchmark_bisect.rs:124-126 | the variance is the same with the two samples exchanged, so the same holds for one candidate |
| RankSum.ScoreIsCorrected | src/benchmark_bisect.rs:124-128 | the score changes sign half a pair above the mean |
| RankSum.SlowerIsMoreSignificant | src/benchmark_bisect.rs:101-130 | the more pairs a candidate wins, the smaller its p-value |
| RankSum.NoSamplesNoEvidence | src/benchmark_bisect.rs:101-105 | without samples on a side the p-value is 1 |
| RankSum.PValueIsProbability | src/benchmark_bisect.rs:129-130 | a p-value lies between 0 and 1 when the distribution function does |
| RankSum.OppositePValues | src/benchmark_bisect.rs:124-129 | the p-values of the two directions add up to at least one, so at most one of them is below one half |
| NoisySearch.ResampleCost | src/benchmark_bisect.rs:237-259 | one midpoint costs at least one and at most max(1, attempts) runs, exactly one when it was not noisy |
| NoisySearch.ResampleExhausts | src/benchmark_bisect.rs:237-263 | without any verdict all attempts are made, at least one, and the fallback decides on all samples |
| NoisySearch.SearchEndsAdjacent | src/benchmark_bisect.rs:226-271 | for every runner that does not fail the search ends on adjacent commits inside the range |
| NoisySearch.SearchAnswerWasJudged | src/benchmark_bisect.rs:226-280 | the older commit of the answer is the first or was judged good, the newer is the last or was judged bad |
| NoisySearch.SearchIsGenuine | src/benchmark_bisect.rs:233-263 | every recorded judgement is what the judge said of that commit at that call |
| NoisySearch.RoundsInside | src/benchmark_bisect.rs:226-233 | only commits strictly inside the range are benchmarked |
| NoisySearch.SearchFindsThreshold | src/benchmark_bisect.rs:226-280 | when all verdicts follow one threshold t the answer is exactly t and t-1 |
| NoisySearch.RoundCount | src/benchmark_bisect.rs:226-271 | the number of rounds lies between floor and ceiling of log2 of the width |
| NoisySearch.RoundPowers | src/benchmark_bisect.rs:226-271 | in powers: 2^rounds < 2N and N < 2^(rounds+1) |
| NoisySearch.RoundBoundsReached | src/benchmark_bisect.rs:226-271 | both bounds are reached at every width, by unanimous bad and by unanimous good verdicts |
| NoisySearch.CeilRoundsExactly | src/benchmark_bisect.rs:226-271 | every judge makes the search take ceil(log2 N) rounds if and only if the width is a power of two |
| NoisySearch.DocumentedCountIsExact | src/benchmark_bisect.rs:26-27 | every clean judge makes the search take the documented ceil(log2 N) runs if and only if the width is a power of two; otherwise the judge that calls everything bad takes one run less |
| NoisySearch.SearchRunBudget | src/benchmark_bisect.rs:232-271 | runs are at most the attempts per round times ceil(log2 N), and equal the rounds when nothing was noisy |
| Bisect.MedianIsCentral | src/benchmark_bisect.rs:69-81 | at most half the samples lie strictly on either side of the median |
| Bisect.DetectRegression | src/benchmark_bisect.rs:133-147 | effect size, p-value and confidence as specified; regressed exactly when the p-value is below the level and the relative change of the median reaches the threshold |
| Bisect.EffectIsRelativeChange | src/benchmark_bisect.rs:134-139 | the effect size is the change of the median in percent of the baseline median, with its sign |
| Bisect.EffectWithoutMedians | src/benchmark_bisect.rs:134-139 | no effect without a baseline median, and none to speak of without a candidate |
| Bisect.RegressedExactly | src/benchmark_bisect.rs:133-147 | regressed exactly when the p-value is below the level and 100 (c - b) is at least the threshold times the baseline median's size; p-value and confidence add up to one |
| Bisect.VerdictExactly | src/benchmark_bisect.rs:248-254 | a verdict exactly when one comparison shows a regression and the other does not |
| Bisect.RegressionHasOneDirection | src/benchmark_bisect.rs:133-147 | no two sample lists regress against each other at a level of at most one half |
| Bisect.TestBoth | src/benchmark_bisect.rs:248-254 | the two comparisons of a midpoint give a verdict exactly when they agree |
| Bisect.FallbackSplitsHalfway | src/benchmark_bisect.rs:260-263 | the fallback calls a commit bad exactly when its median lies beyond the middle of the good and bad medians |
| Bisect.FallbackWithoutMedians | src/benchmark_bisect.rs:260-263 | where a median is missing the fallback says good |
| Bisect.Classify | src/benchmark_bisect.rs:233-263 | the sampling loop yields the judgement, cost and noise flag of its specification, or the runner's failure |
| Bisect.Narrow | src/benchmark_bisect.rs:226-271 | the search loop with its counters and sample buffers computes the specified search, including the failure cases |
| Bisect.SamplesOfTheAnswer | src/benchmark_bisect.rs:226-280 | the buffers the search ends with hold what was measured at the two commits of its answer |
| Bisect.EvidenceBlames | src/benchmark_bisect.rs:272-280 | the evidence names a commit and its predecessor, judged bad and good or ends of the range, compares the samples measured for the one with those for the other, and counts runs and noisy midpoints |
| Bisect.EvidenceBlamesThreshold | src/benchmark_bisect.rs:272-280 | when all verdicts follow one threshold t it names the commits t and t-1 |
| Bisect.BisectionFailure | src/benchmark_bisect.rs:238-245 | a search fails only with the reason of a run that failed, under the hash of the commit it was made at |
| Bisect.Bisection | src/benchmark_bisect.rs:212-280 | range and regression checks, search and evidence together with what the evidence means, and every error case of the function |
| Bisect.BisectionRunBudget | src/benchmark_bisect.rs:212-280 | the run budget of a whole bisection over N = commits - 1 |
| Bisect.KnownAreRecognised | src/benchmark_bisect.rs:248-254 | the known good and bad distributions are judged good and bad |
| Bisect.SteadyRunsReachBounds | src/benchmark_bisect.rs:212-280 | a runner that always measures one of them gives a bisection without noise that takes floor(log2 N) runs if bad and ceil(log2 N) if good |
| Bisect.DocumentedBisectionCount | src/benchmark_bisect.rs:26-27 | for any two distributions that `bisect` accepts, every runner without noise makes the documented ceil(log2 N) runs if and only if N is a power of two |
| SchemaConversion.NamesReadBack | scripts/validate-yaml-manifests.py:280-303 | comparing a key's name finds the key, and naming what was found gives the text back |
| SchemaConversion.NamesTellKeys | scripts/validate-yaml-manifests.py:280-303 | two keys with one name are one key |
| SchemaConversion.FalsyValuesAre | scripts/validate-yaml-manifests.py:280-310 | the values that count as false |
| SchemaConversion.RaisingSpreads | scripts/validate-yaml-manifests.py:267-303 | an exception inside a list or a mapping is not caught on the way out |
| SchemaConversion.RaisingSpreadsFromEntry | scripts/validate-yaml-manifests.py:280-303 | nor is one inside a schema that an entry holds |
| SchemaMeaning.LaterDecides | scripts/validate-yaml-manifests.py:280-303 | of `type` and int-or-string, and of `additionalProperties` and preserve-unknown-fields, the later true one decides what is written |
| SchemaMeaning.TypePreserved | scripts/validate-yaml-manifests.py:280-310 | type, int-or-string and nullable together mean the same before and after conversion at every node that keeps its types |
| SchemaMeaning.VacuousAccepts | scripts/validate-yaml-manifests.py:267-310 | a schema whose keywords ask nothing accepts every value in both readings |
| SchemaMeaning.NodePreserved | scripts/validate-yaml-manifests.py:267-310 | at every node with clean schemas below, all but the two collisions is preserved |
| SchemaMeaning.Preserved | scripts/validate-yaml-manifests.py:267-310 | for every clean schema tree and every JSON value, OpenAPI validity equals draft-07 validity of the converted schema |
| SchemaNormalForm.OpenApiToJsonSchema | scripts/validate-yaml-manifests.py:267-310 | the recursive function with its dictionary loop computes the specified conversion, or raises exactly when specified |
| SchemaNormalForm.ConvertEntries | scripts/validate-yaml-manifests.py:280-303 | the loop raises exactly when an entry does, and otherwise leaves what the entries write in order |
| SchemaNormalForm.ConvertEntry | scripts/validate-yaml-manifests.py:280-303 | what one turn of the loop writes, skips or raises |
| SchemaNormalForm.PatchType | scripts/validate-yaml-manifests.py:305-310 | how `nullable` patches the type that was written |
| SchemaNormalForm.CleanNeverRaises | scripts/validate-yaml-manifests.py:267-310 | no clean schema raises |
| SchemaNormalForm.ConvertedIsNormal | scripts/validate-yaml-manifests.py:267-310 | no Kubernetes extension survives at any depth, and keys are distinct |
| SchemaNormalForm.NormalIsFixed | scripts/validate-yaml-manifests.py:267-310 | a schema in that form is converted to itself |
| SchemaNormalForm.Idempotent | scripts/validate-yaml-manifests.py:267-310 | converting twice is converting once, for every schema |
| SchemaCollisions.TypesKeptExactly | scripts/validate-yaml-manifests.py:280-310 | at a node with any other fields, the types asked for are the same on every value if and only if an overwritten `type` listed all integers and strings, or a `type` that overwrites int-or-string lists nothing else but a nullable null |
| SchemaCollisions.AdditionalKeptExactly | scripts/validate-yaml-manifests.py:280-303 | at a node with clean schemas below, what is asked of further members is the same on every value if and only if no overwritten `additionalProperties` rejects a value that a further member could have |
| SchemaCollisions.VacuousIsHarmless | scripts/validate-yaml-manifests.py:280-303 | keywords that ask nothing are a syntactic reason for that |
| SchemaCollisions.NoLossKeepsMeaning | scripts/validate-yaml-manifests.py:267-310 | a node with clean schemas below keeps its meaning when neither collision loses anything |
| SchemaCollisions.TypeNodesExactly | scripts/validate-yaml-manifests.py:280-310 | a node that asks only for types keeps its meaning if and only if it keeps its types |
| SchemaCollisions.AdditionalNodesExactly | scripts/validate-yaml-manifests.py:280-303 | a node that speaks only of further members keeps its meaning if and only if no overwriting loses it |
| SchemaCollisions.TypeLost | scripts/validate-yaml-manifests.py:280-303 | a type of string followed by int-or-string does not keep its meaning |
| SchemaCollisions.IntOrStringLost | scripts/validate-yaml-manifests.py:280-303 | int-or-string followed by a type of boolean does not keep its meaning |
| SchemaCollisions.AdditionalLost | scripts/validate-yaml-manifests.py:280-303 | a closed object followed by preserve-unknown-fields does not keep its meaning |
| DrainAtomic.CountersUpToDrift | src/connection_drain.rs:191-309 | in every interleaving of atomic operations in_flight is the live guards plus half-done operations, less the orphaned streams, plus a recorded drift |
| DrainAtomic.PoliteRunsAreExact | src/connection_drain.rs:191-309 | in every interleaving where the straggler block overlaps no half-done open, no stream drop and no other block, the drift is zero and in_flight never wraps |
| DrainNecessity.ImpoliteStepCanWrap | src/connection_drain.rs:191-309 | no part of that condition can be dropped: a run that has kept it and takes any step against it can go on so that in_flight falls below zero |
| DrainNecessity.WrappedReads | src/connection_drain.rs:238-248 | below zero, in_flight reads as 2^64 less what is missing |
| DrainAtomic.CountersExact | src/connection_drain.rs:199-221 | such counters equal the live guards plus half-done operations and never wrap, so no subtraction underflows |
| DrainAtomic.ForcedTerminations | src/connection_drain.rs:251-258 | after the block, what the drain reads is held connections and drops under way |
| DrainAtomic.DropInsideBlockUnderflows | src/connection_drain.rs:238-248 | without the side condition: a run in which a drop inside the block makes the counter wrap |
| DrainAtomic.LateOpenUnderflows | src/connection_drain.rs:211-221 | without the side condition: a run in which an open across the block makes it wrap |
| DrainAtomic.TwoDrainsUnderflow | src/connection_drain.rs:238-248 | without the side condition: a run in which two drains release the same stream and make it wrap |
| DrainAtomic.LateAdmissionsWerePending | src/connection_drain.rs:191-221 | over every run, once the phase has left Active it never returns, and a guard that appears later belongs to a task that had passed the check |
| DrainAtomic.LateAdmissionsExactly | src/connection_drain.rs:191-221 | after the phase has left Active, a task gets a guard if and only if it had passed the check and makes the operations it still needed |
| DrainAtomic.AdmissionProceeds | src/connection_drain.rs:199-221 | over every run, an admission that has passed the check is never refused: it is over after a fixed number of its own operations, however the others interleave |
| DrainAtomic.PhaseAfter | src/connection_drain.rs:191-254 | which operations write the phase, and what |
| DrainAtomic.EntersExactly | src/connection_drain.rs:199-221 | a request enters an admission exactly in phase Active, and otherwise does nothing |
| DrainAtomic.NothingAfterStop | src/connection_drain.rs:191-221 | over every run, after a `stop_intake` or the start of a drain a request does nothing |
| DrainAtomic.GraceExactly | src/connection_drain.rs:234-236 | a drain grants the stream grace exactly when streams are open |
| DrainAtomic.PeakIsLargestSeen | src/connection_drain.rs:203-217 | over every run the peak is the largest in_flight that a completed admission saw |
| DrainAtomic.SeenIsInFlight | src/connection_drain.rs:203-217 | what an admission sees is in_flight with itself counted in |
| DrainProtocol.InvStep | src/connection_drain.rs:199-261 | every method keeps in_flight = connections + uninterrupted streams and admitted = released + interrupted + in flight |
| DrainProtocol.RunsKeepInv | src/connection_drain.rs:199-309 | so does every run |
| DrainProtocol.PeakIsMaximum | src/connection_drain.rs:203-217 | the peak bounds every in_flight of the run and was reached |
| DrainProtocol.PhaseNeverReturns | src/connection_drain.rs:191-254 | the phase never returns to Active, and nothing is admitted after it has left |
| DrainProtocol.PhaseStep | src/connection_drain.rs:191-254 | what each method does to the phase |
| DrainProtocol.GuardsStep | src/connection_drain.rs:199-309 | a guard comes into being by admission and goes by being dropped, and in no other way |
| DrainProtocol.DrainsStep | src/connection_drain.rs:229-261 | a drain is under way from its beginning to its end, and waits for streams first exactly when some are open |
| DrainProtocol.AdmittedExactly | src/connection_drain.rs:199-221 | work is admitted and counted exactly in phase Active, and otherwise nothing changes |
| DrainProtocol.NothingAfterStop | src/connection_drain.rs:191-221 | over every run, after intake was stopped or a drain has begun a request changes nothing |
| DrainProtocol.DrainController.StopIntake | src/connection_drain.rs:191-193 | sets the phase StopIntake and leaves every counter as it was |
| DrainProtocol.DrainController.Acquire | src/connection_drain.rs:199-208 | admits exactly in phase Active, with the whole new state |
| DrainProtocol.DrainController.OpenStream | src/connection_drain.rs:211-221 | the same for a stream, which counts in both counters |
| DrainProtocol.DrainController.ReleaseConnection | src/connection_drain.rs:282-287 | gives back one unit, which cannot underflow |
| DrainProtocol.DrainController.ReleaseStream | src/connection_drain.rs:295-309 | gives back a unit exactly when the stream was not interrupted |
| DrainProtocol.DrainController.Begin | src/connection_drain.rs:229-235 | enters Draining with all counters as they were and grants the stream grace exactly when streams are open |
| DrainProtocol.DrainController.Interrupt | src/connection_drain.rs:238-248 | releases every open stream once and counts it as interrupted |
| DrainProtocol.DrainController.Finish | src/connection_drain.rs:251-261 | forced terminations are exactly the connections still held |
| Encoding.HexRoundTrip | src/audit_chain.rs:401-404 | decoding the hexadecimal text gives the bytes back |
| Encoding.HexDigitsAre | src/audit_chain.rs:401-404 | digits are written in lower case and read in either case, and nothing else is a digit |
| Encoding.BigEndianInjective | src/audit_chain.rs:372-372 | equal 8-byte words are equal sequence numbers |
| Merkle.NextLevel | src/audit_chain.rs:406-419 | the chunk loop computes the level above, an odd last node paired with itself |
| Merkle.ComputeMerkleRoot | src/audit_chain.rs:393-422 | the loop terminates and equals the recursive pairing, with the empty and one-leaf cases |
| Merkle.EmptyRootIsZero | src/audit_chain.rs:393-396 | the root of no leaves is the text of 32 zero bytes |
| Merkle.RootBinds | src/audit_chain.rs:393-422 | equally many 32-byte leaves with equal roots are equal, or two of the hashed inputs collide |
| Merkle.OddLeafRepeats | src/audit_chain.rs:406-415 | unequal lengths can agree: repeating the last of an odd number of leaves keeps the root |
| Merkle.RootTextBinds | src/audit_chain.rs:393-422 | the same binding for the hexadecimal texts |
| AuditChain.FramingIsUnambiguous | src/audit_chain.rs:364-379 | the concatenation hashed for a record determines its fields |
| AuditChain.FirstInputIsApart | src/audit_chain.rs:364-379 | a first record, whatever its genesis, is never hashed like a later one |
| AuditChain.VerifyAuditChain | src/audit_chain.rs:426-534 | succeeds exactly on the intact lists, with the summary; otherwise reports the first faulty record, its first failed check, and what was expected and found |
| AuditChain.EvidenceShowsFault | src/audit_chain.rs:448-514 | what was expected and what was found differ exactly when the record has a fault |
| AuditChain.FaultNames | src/audit_chain.rs:448-514 | which fault is named for which defect of a record |
| AuditChain.ErrorNamesFault | src/audit_chain.rs:448-514 | the error holds the record's number and, for each fault, what was expected and what was found |
| AuditChain.PrefixVerifies | src/audit_chain.rs:426-534 | every prefix of an intact list is intact |
| AuditChain.RecordBinds | src/audit_chain.rs:364-379 | two intact records with one hash have one content and one position, or collide, whatever the genesis |
| AuditChain.HeadPinsChain | src/audit_chain.rs:426-534 | two non-empty intact lists with one genesis and one head are equal except for signatures, or two records collide |
| AuditChain.SignaturesAreNotCovered | src/audit_chain.rs:364-379 | replacing signatures keeps a list intact |
| AuditChain.AppendVerifies | src/audit_chain.rs:261-283 | a chain is intact after appending if and only if it was intact and the clock has not gone back |
| AuditChain.NewRecordIsGenuine | src/audit_chain.rs:261-283 | a new record holds what was appended, in its place, linked to the head and hashed and signed over itself |
| AuditChain.BuiltIsSigned | src/audit_chain.rs:261-283 | in every chain built by appending each signature checks against its own record's hash |
| AuditChain.SignatureBinds | src/audit_chain.rs:261-283 | one signature on two records of any clusters' chains means one record, or a collision of the code or of the hash |
| AuditChain.CheckpointPinsHashes | src/audit_chain.rs:330-360 | equal signing material has equal count, and equal record hashes or a collision in the tree |
| AuditChain.CheckpointPinsChain | src/audit_chain.rs:330-360 | for intact lists equal signing material means the same chain, or two records collide |
| AuditChain.Chain.constructor | src/audit_chain.rs:233-245 | the genesis hash and an empty, intact chain |
| AuditChain.Chain.Append | src/audit_chain.rs:261-283 | each field of the record added, signature included, the whole new state, and when it still verifies |
| AuditChain.Chain.CreateCheckpoint | src/audit_chain.rs:330-360 | none exactly for the empty chain; otherwise root, head, range and what is signed |
| Federation.Merge | src/federation_consistency.rs:79-89 | the loop, in any order, computes the pointwise maximum |
| Federation.MergeIsLeastUpperBound | src/federation_consistency.rs:79-89 | the merge lies below exactly the common upper bounds |
| Federation.MergeAssociative | src/federation_consistency.rs:79-89 | associative |
| Federation.MergeCommutes | src/federation_consistency.rs:79-89 | commutative |
| Federation.MergeIdempotent | src/federation_consistency.rs:79-89 | idempotent |
| Federation.CheckDominates | src/federation_consistency.rs:61-76 | the loop, in any order, decides domination |
| Federation.DominatesIsStrictOrder | src/federation_consistency.rs:61-76 | on one cluster set domination is the strict pointwise order |
| Federation.DominationTransitive | src/federation_consistency.rs:61-76 | transitive there |
| Federation.DominationAsymmetric | src/federation_consistency.rs:61-76 | asymmetric there |
| Federation.DominationCanBeMutual | src/federation_consistency.rs:61-76 | off one cluster set two vectors can dominate each other |
| Federation.DominatesExactly | src/federation_consistency.rs:61-76 | for positive entries it is the strict order if and only if no cluster of the other is missing |
| Federation.VectorsStayPositive | src/federation_consistency.rs:50-53 | increments and merges keep entries positive, and an increment is strictly above |
| Federation.ResolveConflicts | src/federation_consistency.rs:268-288 | the loop computes the specified fold |
| Federation.ResolvedIsBest | src/federation_consistency.rs:268-288 | the winner is one of the states, none beats it, and none has a higher hash |
| Federation.ReconcileState | src/federation_consistency.rs:197-254 | the loops compute the specified choice with the merged vector |
| Federation.LatestIsMaximal | src/federation_consistency.rs:238-248 | without a conflict the choice is at or above the local state and nothing seen is above it |
| Federation.MergedVectorsAgree | src/federation_consistency.rs:209-213 | all clusters compute the same merged vector, whatever order they see |
| Federation.ChainPicksTop | src/federation_consistency.rs:197-254 | for a strict chain every cluster picks the top, in every order |
| Federation.AntichainPicksFavourite | src/federation_consistency.rs:197-288 | for pairwise concurrent states every cluster picks the tiebreak's favourite, in every order |
| Federation.OneRoundAgreesExactly | src/federation_consistency.rs:197-288 | one round agrees in every order if and only if the states form a chain or the favourite tops whatever lies above an unconflicted state |
| Federation.SecondRoundConverges | src/federation_consistency.rs:197-288 | from any states over any cluster sets, whatever the first round left, the second makes all clusters agree |
| Federation.AgreedStateIsFixed | src/federation_consistency.rs:197-254 | once all clusters hold one state a round changes nothing |
| Federation.AgreementIsStable | src/federation_consistency.rs:197-254 | when all pick one state they hold one state with one merged vector, and a second round changes nothing |
| Federation.DisjointStatesSwap | src/federation_consistency.rs:197-254 | two states with disjoint cluster sets are swapped by the first round |
| CrdLint.WalkProperties | scripts/crd_migration_lint.py:33-44 | the recursive loop computes the specified flattening, later writes winning |
| CrdLint.RequiredPaths | scripts/crd_migration_lint.py:47-55 | the recursive loop computes the specified set of required paths |
| CrdLint.CompareCrds | scripts/crd_migration_lint.py:58-94 | the report lists exactly the breaking changes, and is empty exactly for compatible definitions |
| CrdLint.CompatibleReflexive | scripts/crd_migration_lint.py:72-93 | compatibility is reflexive |
| CrdLint.CompatibleTransitive | scripts/crd_migration_lint.py:72-93 | compatibility is transitive, over schemas of any depth |
| CrdMeaning.IncludedIffKept | scripts/crd_migration_lint.py:33-44 | for names without separators, flat inclusion is exactly inclusion of the trees, through array items |
| CrdMeaning.NewlyRequiredIff | scripts/crd_migration_lint.py:47-93 | for such names no path is newly required exactly when no existing field became required outside array items |
| CrdMeaning.CompatibleMeansTreesCompatible | scripts/crd_migration_lint.py:33-94 | so an empty report means exactly that the trees are compatible |
| CrdMeaning.ItemChangesUnreported | scripts/crd_migration_lint.py:47-55 | whatever array items newly require or change their type to is not reported |
| CrdMeaning.DottedNamesConfused | scripts/crd_migration_lint.py:37-37 | with a dotted name the report can be empty although the property is gone |
| Decimals.ShownReads | src/dependency_contract.rs:135-143 | the numeral of a number reads back as that number |
| VersionText.PrintParseExactly | src/dependency_contract.rs:91-143 | parsing a printed version gives it back if and only if its pre-release does not end in white space |
| VersionText.ParsePrintParse | src/dependency_contract.rs:91-143 | for every accepted text, parse after print after parse is parse |
| VersionText.RisesIsStrictTotalOrder | src/dependency_contract.rs:129-132 | the order used for upgrades is a strict total order |
| ReleaseGate.ParseSemverIsPattern | scripts/semver_gate.py:50-62 | the version scan accepts exactly the texts of the pattern, with or without one final newline, and yields the numbers they spell |
| ReleaseGate.PreCharsAre | scripts/semver_gate.py:50-50 | the characters a pre-release may hold, by their codes |
| ReleaseGate.LevelsAreRanked | scripts/semver_gate.py:51-51 | the order of the bump levels |
| ReleaseGate.BumpIsFirstDifference | scripts/semver_gate.py:65-74 | a bump is valid exactly when the leftmost differing number grows, and is named after it |
| ReleaseGate.BumpsCompose | scripts/semver_gate.py:65-74 | two valid bumps in a row amount to the higher of the two |
| ReleaseGate.CrdImpact | scripts/semver_gate.py:89-108 | the level required, with exactly the reasons for it |
| ReleaseGate.ImpactSubadditive | scripts/semver_gate.py:89-108 | two steps together require no more than one of them, when no served flag flips and no version is re-added |
| ReleaseGate.CheckBump | scripts/semver_gate.py:203-209 | the gate passes exactly valid bumps of at least the required level |
| ReleaseGate.SeriesPasses | scripts/semver_gate.py:192-209 | in a steady series whose every step passes, any later release passes against any earlier one |
| ReleaseGate.ServedFlipHidesRemoval | scripts/semver_gate.py:89-108 | a served flag that flips hides a removal: shipped as patch releases both steps pass and the two together fail |
| ReleaseGate.ServedFlipHidesAddition | scripts/semver_gate.py:89-108 | a version added unserved and served later hides an addition in the same way |
| ReleaseGate.ReaddHidesChange | scripts/semver_gate.py:89-108 | a version dropped and re-added hides a change in the same way |
| Autoscaler.NamesTellIndicators | src/adaptive_hpa.rs:65-76 | every indicator goes under a name of its own |
| Autoscaler.RatioMeansPressure | src/adaptive_hpa.rs:77-152 | a ratio times its target is what was observed, and above 1 exactly when the target is exceeded; what it is without a target |
| Autoscaler.SmoothingStep | src/adaptive_hpa.rs:250-260 | a first sample is the average, each later one closes exactly the fraction alpha of the gap, and other averages stay |
| Autoscaler.SmoothedIsAverage | src/adaptive_hpa.rs:303-317 | the ratio a measurement contributes is its indicator's average once it is counted |
| Autoscaler.EqualSamplesConverge | src/adaptive_hpa.rs:250-260 | after n equal samples x the average is x + (1 - alpha)^n (start - x) |
| Autoscaler.SmoothingDecides | src/adaptive_hpa.rs:204-424 | at the default settings an average of 1 and a new ratio of 1.5 at four replicas ask for six |
| Autoscaler.EwmaInRange | src/adaptive_hpa.rs:250-260 | for alpha in [0,1] a moving average stays within the range of its samples |
| Autoscaler.DominantIsMaximum | src/adaptive_hpa.rs:303-317 | the scan finds the largest smoothed ratio if and only if that is not 1 or 1 comes last |
| Autoscaler.DesiredIsTight | src/adaptive_hpa.rs:319-329 | the raw target is the smallest count that meets the ratio with headroom, or the largest a low ratio leaves |
| Autoscaler.AffordableIsExact | src/adaptive_hpa.rs:172-182 | the cap is the largest count the monthly budget pays for |
| Autoscaler.AffordableOtherwise | src/adaptive_hpa.rs:172-182 | no cap without a budget in force, and one replica when it pays for none |
| Autoscaler.SecondsAreWhole | src/adaptive_hpa.rs:332-358 | elapsed time counts in whole seconds, rounded towards zero |
| Autoscaler.GateIsExact | src/adaptive_hpa.rs:331-381 | an open gate moves by exactly the smaller of the distance to the raw target and the step bound; a closed one moves nothing |
| Autoscaler.CapIsNearest | src/adaptive_hpa.rs:383-406 | range and budget give the admissible count nearest to the desired one |
| Autoscaler.EngineRemembers | src/adaptive_hpa.rs:303-411 | every sample is counted whatever is decided, and time and direction are noted exactly when the count changes |
| Autoscaler.AdaptiveHpaEngine.constructor | src/adaptive_hpa.rs:271-278 | a fresh engine |
| Autoscaler.AdaptiveHpaEngine.Observe | src/adaptive_hpa.rs:303-317 | the loop updates every average and returns the dominant ratio, and names an indicator that has it unless all ratios are 1 |
| Autoscaler.AdaptiveHpaEngine.Gate | src/adaptive_hpa.rs:331-381 | cooldown, stabilization and the step bound |
| Autoscaler.AdaptiveHpaEngine.Cap | src/adaptive_hpa.rs:383-406 | the replica range and the budget, and whether the budget was what capped |
| Autoscaler.AdaptiveHpaEngine.Evaluate | src/adaptive_hpa.rs:281-424 | the decision and the whole new engine state |
| Autoscaler.StepBounded | src/adaptive_hpa.rs:331-411 | one evaluation keeps the range, moves by at most a step, and only in its stated direction with its gate open |
| Autoscaler.PressureIsAnswered | src/adaptive_hpa.rs:331-411 | with its gate open and room left, an evaluation that wants more or fewer replicas gets some |
| Autoscaler.RunMovesByStep | src/adaptive_hpa.rs:331-411 | over every run replicas stay in range and move by at most a step |
| Autoscaler.NoEarlyDrop | src/adaptive_hpa.rs:355-374 | over every run no drop within the stabilization window of any earlier change |
| Autoscaler.NoEarlySecondRise | src/adaptive_hpa.rs:332-354 | over every run no second rise within the cooldown unless a drop came between |
| Autoscaler.RisesApart | src/adaptive_hpa.rs:332-411 | with cooldown at most the stabilization window any two rises are a cooldown apart |
| Autoscaler.RiseDropRise | src/adaptive_hpa.rs:332-411 | for every longer cooldown a run in which they are not |
| Autoscaler.RunEwmaInRange | src/adaptive_hpa.rs:250-311 | over every run each average stays within the range of the ratios it was fed |
| ConfigReload.RunsKeepCore | src/config_reload.rs:144-271 | every interleaving keeps locks, live snapshot and history consistent with the full log |
| ConfigReload.PublishedStateIsLatest | src/config_reload.rs:174-262 | versions are 1..n without gaps, a free live snapshot is the last entry, a free history the last min(32, n) |
| ConfigReload.RetainedIsTail | src/config_reload.rs:258-260 | a bounded history is the last 32 entries of the log, or all |
| ConfigReload.ReadsAreLatest | src/config_reload.rs:174-197 | a read yields the last accepted version, directly or through the fallback |
| ConfigReload.ReadersProceed | src/config_reload.rs:174-197 | while no attempt holds the live snapshot every reader can proceed, directly and through the fallback |
| ConfigReload.SeenNeverGoesBack | src/config_reload.rs:174-197 | accepted entries are never revoked and one reader's versions never go backwards |
| ConfigReload.AttemptsKeepBytes | src/config_reload.rs:221-271 | over every run an attempt carries to its end what the bytes it was given amount to, a rejected one the error they give |
| ConfigReload.AcceptedIsGenuine | src/config_reload.rs:226-243 | every accepted snapshot has the digest, length and payload of the bytes its author submitted, which fit, parsed and passed the validator |
| ConfigReload.EntriesHaveOneAuthor | src/config_reload.rs:245-262 | log entries after the first and committed attempts match one to one |
| ConfigReload.RejectedChangedNothing | src/config_reload.rs:226-243 | no step of an attempt that ends up rejected changed shared state |
| ConfigReload.NewDigestUnlessOvertaken | src/config_reload.rs:229-247 | unless another attempt was accepted in between, an accepted digest differs from the one before |
| ConfigReload.SameBytesAcceptedTwice | src/config_reload.rs:232-262 | a run in which two attempts with the same bytes are both accepted |
| ConfigReload.TrimFront | src/config_reload.rs:258-260 | the pop loop leaves the last min(32, n) entries |
| ConfigReload.ConfigReloader.constructor | src/config_reload.rs:144-160 | version 1, alone in the history |
| ConfigReload.ConfigReloader.Publish | src/config_reload.rs:245-262 | one entry is appended and the history stays the tail of the log |
| ConfigReload.ConfigReloader.TryReloadBytes | src/config_reload.rs:221-271 | accepts exactly new, admissible, valid contents; a refusal reports the error the contents give and changes nothing |
| ConfigReload.ConfigReloader.GetBlocking | src/config_reload.rs:181-197 | returns the last accepted payload, or panics exactly when all tries find both locks taken |
| Canary.FailureRollsBack | src/canary_promotion_controller.rs:163-191 | one failed gate rolls back, the results are recorded, and there is no retry |
| Canary.RollbackCompletes | src/canary_promotion_controller.rs:163-242 | over every run, two reconciles after a failed analysis the canary is rolled back at no weight, for good |
| Canary.ThresholdsHonouredExactly | src/canary_promotion_controller.rs:163-191 | over every run, an analysis rolls back exactly when the consecutive violations documented for a gate are due, if and only if every gate passed or one failed whose threshold is at most one |
| Canary.ThresholdsOfOneOnly | src/crd/progressive_delivery.rs:76-77 | the documented thresholds are honoured in every run of a progression if and only if none of them is above one |
| Canary.HighThresholdIgnored | src/canary_promotion_controller.rs:163-191 | for every threshold above one, a run that rolls back at the first violation of that gate alone |
| Canary.ThresholdTwoFailsOnce | src/canary_promotion_controller.rs:163-191 | one gate with threshold 2 that fails once is rolled back before it is due |
| Canary.ResultsMean | src/canary_promotion_controller.rs:169-187 | the results pass exactly when every gate does, and show a violation exactly when one fails |
| Canary.ProgressiveDelivery.EvaluateGates | src/canary_promotion_controller.rs:274-290 | one result per gate, a failed one with one violation |
| Canary.OverrideMeans | src/canary_promotion_controller.rs:244-270 | promote ends Completed at 100 and rollback RolledBack at 0 from every status, an unknown action changes nothing, and nothing else changes |
| Canary.ProgressiveDelivery.HandleOverride | src/canary_promotion_controller.rs:244-270 | the same as an update of the stored status; an unknown action is an error, and without a status it panics |
| Canary.ProgressiveDelivery.Reconcile | src/canary_promotion_controller.rs:67-242 | an override first, otherwise one step of the phase machine, including a failed evaluation |
| Canary.RunsAreSound | src/canary_promotion_controller.rs:67-242 | over every run Completed means weight 100, RolledBack weight 0, a canary that has not started has neither weight nor results, and Failed is never entered |
| Canary.EndsAreFinal | src/canary_promotion_controller.rs:98-106 | Completed and RolledBack are absorbing |
| Canary.NoOverrideIsRun | src/canary_promotion_controller.rs:67-113 | without overrides, reconciles of a stored status are the runs of the phase machine |
| Canary.OverriddenRunsAreSound | src/canary_promotion_controller.rs:67-270 | over every run with overrides Completed still means weight 100, RolledBack weight 0, and Failed is never entered |
| Canary.EndsFollowOverrides | src/canary_promotion_controller.rs:67-270 | over every run with overrides an end is left only by an override, and for the end that the last one names |
| Canary.StepsCountPromotions | src/canary_promotion_controller.rs:194-214 | over every run the step number counts the promotions |
| Canary.WeightChangesAreEarned | src/canary_promotion_controller.rs:125-242 | each weight change is the first, or a rollback after a failed analysis, or follows an analysis at the old weight that passed all gates |
| Canary.CompletesExactly | src/canary_promotion_controller.rs:67-228 | a passing run completes at reconcile 4k+1, k being the first analysis that leads to full weight |
| Canary.NextWeightAtMostFull | src/canary_promotion_controller.rs:325-342 | computed weights are at most 100, and steps that have run out mean 100 |
| Canary.MultipliedIsFloor | src/canary_promotion_controller.rs:331-334 | a product is truncated to the whole number below it, and a negative one to none |
| Canary.LinearRoundsIsLeast | src/canary_promotion_controller.rs:330-330 | max(1, ceil((100-w)/s)) is the least number of steps that reaches full weight when nothing overflows |
| Canary.LinearTakes | src/canary_promotion_controller.rs:310-330 | for every linear progression with a positive step k has a closed form, overflowing sums included |
| Canary.LinearFormulaExactly | src/canary_promotion_controller.rs:310-330 | a run of more than five states shows k to be the count without overflow if and only if not 2^32 <= w + s < 2^32 + 100 |
| Canary.ZeroStepTakes | src/canary_promotion_controller.rs:330-330 | with step size 0 a run completes if and only if it starts at full weight, and then after one analysis |
| Canary.StepwiseTakes | src/canary_promotion_controller.rs:335-341 | for a stepwise progression k is one more than the index of the first full step, or the number of steps |
| Canary.StepwiseWeights | src/canary_promotion_controller.rs:320-341 | the first configured step is analysed twice, each later one once |
| Canary.NoStepsStartAtFive | src/canary_promotion_controller.rs:320-341 | without configured steps the canary starts at five percent and is full after one analysis |
| Canary.ExponentialCompletes | src/canary_promotion_controller.rs:331-334 | an exponential progression reaches full weight if and only if its first multiplication does, or grows |
| Canary.ExponentialTakes | src/canary_promotion_controller.rs:331-334 | every passing run completes after a number of analyses that depends on weight and multiplier alone, at most one for each missing percent, and never if the progression does not grow |
| DependencyGate.TouchesExactly | src/dependency_contract.rs:321-324 | `touches` means what it documents if and only if a name used is or lies under the API, or none merely begins like it |
| DependencyGate.OtherNamesAreFound | src/dependency_contract.rs:321-324 | a use of `foobar` touches `foo` |
| DependencyGate.UndulyBlockedExactly | src/dependency_contract.rs:939-1021 | the gate is never laxer than by the documented meaning, and blocks an upgrade that meaning lets through if and only if a name used merely begins like a fatally changed one |
| DependencyGate.UndulyBlocked | src/dependency_contract.rs:939-1021 | an upgrade that removes `foo` is blocked for a consumer that only calls `foobar` |
| DependencyGate.Generate | src/dependency_contract.rs:454-496 | the loops keep the first use under each key and count all others, so tests plus deduplicated is the number of uses; consumers come out sorted |
| DependencyGate.UsesComeFromSites | src/dependency_contract.rs:461-479 | the uses are exactly the names that call sites list, with the consumer and the place that list them |
| DependencyGate.KeptCovers | src/dependency_contract.rs:461-479 | every use is covered by exactly one test, which comes from the first use under its key |
| DependencyGate.OneTestPerPair | src/dependency_contract.rs:461-479 | for consumers without a colon there is exactly one test per consumer and API |
| DependencyGate.KeysCollideExactly | src/dependency_contract.rs:464-468 | two pairs share a key if and only if they are one pair, or a colon or a whole key changes sides |
| DependencyGate.AllTestedExactly | src/dependency_contract.rs:454-496 | every consumer and API that is used has a test if and only if no two uses collide in that way |
| DependencyGate.AssertsExactly | src/dependency_contract.rs:499-511 | a test asserts a configuration key if and only if its API is, or ends after a double colon in, a name of lower-case letters, underscores and hyphens |
| DependencyGate.IdsAreDistinct | src/dependency_contract.rs:470-479 | where locations hold no `@` the tests of a suite have different identifiers |
| DependencyGate.ColonsCollide | src/dependency_contract.rs:464-468 | with a colon two different pairs can share a key, and the second is not tested |
| DependencyGate.BuildCell | src/dependency_contract.rs:574-609 | status, causes and sorted evidence of one row |
| DependencyGate.Construct | src/dependency_contract.rs:560-612 | one correct row per consumer, sorted by consumer: incompatible exactly when a fatal change is used, compatible exactly when no change is |
| DependencyGate.Validate | src/dependency_contract.rs:939-1021 | approved exactly when the version rises without a major bump, call sites exist, the budget holds and no call site uses a fatal change; otherwise exactly the objections |
| DependencyGate.KindsThatBlock | src/dependency_contract.rs:279-286 | a removed API, a changed signature or return type and a renamed key block when a call site touches them, and a change of behaviour alone never does |
| DependencyGate.VerdictIgnoresOrder | src/dependency_contract.rs:939-1021 | the verdict depends on which inputs there are, not on their order or repetition |
| DependencyGate.MoreNeverUnblocks | src/dependency_contract.rs:939-1021 | a further breaking change or call site never unblocks |

## Left out

- Real SHA-256, HMAC and the default hasher, and the texts of times and JSON events: parameters. The audit theorems assume that times and events are printed injectively and without a zero byte, a time without a brace and an event beginning with one.
- Floating-point rounding, NaN and signed zero, and the accuracy of the normal distribution.
- RankSum.OppositePValues: assumes a monotone distribution function with F(-z) = 1 - F(z); the code's rational approximation meets this up to its stated error.
- Bisect.RegressionHasOneDirection: the same assumption.
- Bisect.SteadyRunsReachBounds: the same assumption, and a level of at most one half.
- Bisect.DocumentedBisectionCount: the same assumption, and a level of at most one half.
- Tokio timers, notification wake-ups and lock fairness: a wait is a step that may end either way.
- SchemaMeaning.Preserved: copied keywords are taken to mean the same in both dialects, which leaves out a boolean `exclusiveMinimum` or `exclusiveMaximum`, and copied keywords that hold schemas themselves (`additionalItems`, `contains`, `dependencies`, `if`, `then`, `else`), inside which the code leaves Kubernetes extensions unconverted; the Kubernetes extensions the code drops are read as annotations, so their own constraints are not part of the OpenAPI reading.
- Reading the command line, git and YAML files in the two release scripts, and the chart consistency checks of the release gate: file comparisons only. A base without a chart counts as a major bump and is not part of the series theorem.
- ReleaseGate.ParseSemverIsPattern: digits are ASCII digits.
- CrdLint.CompareCrds: the versions of a definition are a mapping by name, so a list that names one version twice is outside the model, as are properties that are not mappings; the order of the report and repetition in it are not modelled.
- Federation.ReconcileState: vectors are values, an increment at the top of 64 bits is outside the model, and so are the annotation texts, whose order follows the hash map; `update_state`, which restarts a vector, keeps no order between vectors.
- Autoscaler.AdaptiveHpaEngine.Evaluate: the reason text; a negative ratio large enough to overflow 32 bits in the step computation.
- ConfigReload.ConfigReloader.TryReloadBytes: revision identifiers and times, and the broadcast of events; the object is used by one task at a time, interleavings are in the state machine beside it.
- Canary.ProgressiveDelivery.Reconcile: messages and timestamps; the analysis counts are about runs without an override.
- Canary.OverriddenRunsAreSound: `rollbackInProgress`, which an override leaves as it was.
- RankSum.VarianceOfOneBaseline: the variance is derived for one baseline sample and any number of candidates; for more it is taken as the code has it.
- DependencyGate.Generate: the provenance text of a test.
- DependencyGate.Construct: report texts, digests and the signed artifact.
- Pre-release precedence of section 11 of Semantic Versioning 2.0.0: the code compares pre-releases as plain text, and only that order is treated.
- src/deployment_strategy.rs and src/canary_deployment.rs: their transitions are not guarded by phase, so what could be proved is easy.
- src/composite_slo.rs, src/error_budget.rs, src/data_residency.rs, src/consensus_monitoring.rs: weighted sums, lookups and threshold ladders, easy members.
- Database, S3, cluster, HTTP and process I/O, the CLI, dashboards and the remaining scripts.
