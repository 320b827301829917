# Verified model of emp-zk's proof engines

A Dafny model of the parts of emp-zk that carry its guarantees, with proofs over every input, every
run and every prover:

* **the multi-verifier check**: packed Shamir sharings of wires, their information-theoretic MACs,
  the inner-product compression, the final opening, and the lazily resolved wires on top;
* **the two-shuffle memory**: offline memory checking, its freshness set and its permutation test;
* **the transforms and the 59-bit field** that everything above runs on;
* **the arithmetic engine** with its buffered multiplication check, and the background ring that
  feeds it.

Protocol theorems are proved over an arbitrary field (`Algebra.Field`, with the laws as a hypothesis)
and `Fp59Field` discharges the hypothesis for the code's own arithmetic modulo 2^59 - 2^28 + 1.
Hashes, pseudo-random streams, coins and correlations are arbitrary values; soundness is stated by
counting the challenges (or keys) that let a false statement pass, and zero knowledge by showing that
every transcript fits every witness, with exactly one choice of the prover's random values.

Code that works in place is modelled as classes, arrays and loops, each proved against a
specification function, and the properties are proved of the specification.

## Layout

| files | contents |
|---|---|
| `Algebra`, `Polynomials`, `Interpolation`, `Bits`, `Options` | fields, vectors, the root bound, Lagrange interpolation, bit reversal |
| `Ntt`, `NttCorrect`, `NttInverse`, `NttFixed`, `Transforms` | the in-place transforms and what they compute |
| `PackedPoly`, `PolyConversions`, `LagrangeTables` | conversions between party values and secrets |
| `AuthShares`, `PackedAuth`, `PackedExact`, `PackedAuthRun` | authenticated sharings and their preprocessing |
| `Folding`, `Compression`, `CompressionLoops`, `VerifierRun`, `CheckRuns`, `OpenCheck`, `MultCheck`, `CheckSoundness`, `CheckCounts`, `CheckPrivacy`, `CheckPoints` | the multiplication check on both sides |
| `ZeroShares`, `SharePrivacy` | masks of MAC checks, and what shares of keys and masked checks tell |
| `Wires`, `Lockstep`, `LockstepRuns`, `Delivery`, `LazyExec`, `VerifierExec`, `ProverExec`, `ProgramChecks`, `ProgramLedger`, `Reveals`, `ValueLanes`, `AnyShares` | wires, batches, lockstep, the checks and openings of whole programs, and sharings that may be anything |
| `Draws`, `RunDelivery`, `CheckDelivery` | which preprocessed sharings a run uses, and how it gets from correlations to verdicts |
| `Shuffles`, `ZkSet`, `ZkRam`, `PermProof`, `PermBinding`, `PermSound`, `PermComplete` | memory, set and permutation proofs |
| `Primes`, `Fp59Prime`, `Fp59`, `Fp59Inverse`, `Fp59Field`, `Fp59Roots` | the field |
| `ArithEngine`, `ArithCheck`, `ArithCircuits`, `ArithLedger`, `ArithBinding`, `ArithPrivacy` | the arithmetic engine |
| `PipeRing`, `CorrelationPipe`, `PipeParties`, `PipeMessages`, `PipeTeardown` | the background ring |

## Where the code and its comments part

* **RAM width.** The comment derives sequential memory from both shuffles for any `T`. With
  `time_sz = ramzk_bits_for(T)` this is so exactly for `T = 0` and powers of two
  (`ZkRam.RamSecureExactly`); otherwise a first load can read a future write
  (`ZkRam.FutureReadPasses`).
* **Read-only memory.** The "monotone clock" is not enforced by shuffle 1 alone
  (`ZkRam.SelfReadPasses`): with any lookup allowed, passing runs need not return the setup values
  (`ZkRam.RomSecureExactly`). Under the hypothesis `t_old < clock` they do
  (`ZkRam.PastReadsAreSequential`).
* **Roots of unity.** "Power-of-two roots up to 2^28 exist", but `primitiveRoot` drops the lowest bit
  of the exponent and is wrong for degree 2^28 (`Fp59Roots.RootExactly`).
* **k = n.** The conversion object admits it, but its offset then reads other points
  (`PackedPoly.ReadsSecretsExactly`). The backend itself requires `k < n`.
* **Ring.** The comment on `acquire_ready` promises -1 only from a finished producer; after `finish()`
  an empty ring returns -1 too (`PipeRing.FinishEndsEmptyRing`). No draw can observe it
  (`PipeRing.PipeSafe`).
* **Teardown of the ring.** "Both parties reach here after consuming identically, so their producers
  are at the same round" does not follow: one producer may pass `acquire_free` before `finish()` and
  the other not, and then waits for a round that nobody joins. Every schedule is free of this exactly
  if no slot is half read and the rings have no room (`PipeTeardown.TeardownExactly`); every program
  has runs that are not (`PipeTeardown.SomeRunStrands`), and a program that does not draw whole rounds
  never ends in a state that is (`PipeTeardown.UnalignedCanStrand`).

## Model

| member | source | states |
|---|---|---|
| Compression.FoldKeepsClaim | emp-zk/mvzk/zk/prover.h:196-238 | One fold at any challenge turns a true claim sum x*y = z into a true claim about the folded vectors. |
| Compression.RunComplete | emp-zk/mvzk/zk/prover.h:192-271 | Over a whole run, whatever the length and the challenges, a true claim ends in an opened triple with z = x*y, unless a challenge aborts the run. |
| Compression.RoundSoundness | emp-zk/mvzk/zk/verifier.h:290-319 | Of a false claim, whatever 2m-2 values a prover broadcasts in a fold, at most 2m-2 challenges make the folded claim true. |
| Compression.LastRoundSoundness | emp-zk/mvzk/zk/verifier.h:332-361 | Of a false claim, whatever is broadcast in the last round, masking pair included, at most 2m challenges make the opened triple satisfy z = x*y. |
| Compression.RecoversReport | emp-zk/mvzk/zk/verifier.h:296-305 | The value h(p_0), which is not sent, is recovered from z and the other m-1 base values exactly as the prover computed it, whether or not z is right. |
| Compression.HonestOutcome | emp-zk/mvzk/zk/prover.h:192-271 | The honest prover's messages have the sizes the verifiers read round by round, and determine the triple the prover itself would open. |
| Compression.ChunksShrink | emp-zk/mvzk/zk/prover.h:232-238 | The number of chunks strictly shrinks while more than one is left, so the fold loop ends. |
| Compression.InitClaim | emp-zk/mvzk/zk/prover.h:171-180 | The inner-product claim holds exactly if the random combination of all defects left*right - out vanishes; always, if every triple is right. |
| Compression.InitSoundness | emp-zk/mvzk/zk/verifier.h:263-276 | With one wrong triple and all other coefficients fixed, at most one value of its coefficient hides it. |
| Compression.ReportIsTrue | emp-zk/mvzk/zk/prover.h:196-211 | The prover's report, with the last base value computed as the rest of z, is the product polynomial at all points if the claim is true. |
| Compression.AbortsExactly | emp-zk/mvzk/zk/verifier.h:290-345 | Whatever is sent, a run is aborted exactly if one of its challenges is an interpolation point of its round. |
| CheckPrivacy.OneMaskOpens | emp-zk/mvzk/zk/prover.h:243-271 | Zero knowledge of the opening: off the interpolation points every pair (x, y) is opened under exactly one choice of the random masking pair, whatever the claim and the challenges. |
| CheckPrivacy.OpeningsAlike | emp-zk/mvzk/zk/prover.h:243-271 | For true claims the opened triple tells nothing: for any two of the same length and any masking pair of one, some pair of the other opens the same (x, y, x*y). |
| CheckPrivacy.TranscriptsAlike | emp-zk/mvzk/zk/prover.h:192-271 | Zero knowledge of the check: for right triples, all that is broadcast and opened in a run is broadcast and opened in a run on any others of the same number, under one masking pair and one choice of the preprocessed secrets. |
| Folding.ReportFolds | emp-zk/mvzk/zk/compress.h:38-51 | A true report interpolates, at every challenge, to the inner product of the two folded vectors. |
| Folding.FoldSoundness | emp-zk/mvzk/zk/verifier.h:290-319 | A report whose first m values add up to a wrong z meets the product polynomial in at most 2q-2 points. |
| VerifierRun.NextSharesHold | emp-zk/mvzk/zk/verifier.h:296-326 | One fold on shares: if the verifiers share the prover's x, y, z with valid MACs and the broadcast values too, they share the folded x, y, z with valid MACs, true claim or not. |
| VerifierRun.OpeningSharesHold | emp-zk/mvzk/zk/verifier.h:332-361 | After the last round the verifiers' shares are authentic for exactly the triple that the messages leave to open. |
| VerifierRun.VerifiersFollow | emp-zk/mvzk/zk/verifier.h:263-361 | For any messages, honest or not, all verifiers abort at the same challenge, or all end with authentic shares of the triple the messages determine. |
| CompressionLoops.RoundReport | emp-zk/mvzk/zk/prover.h:196-211 | The loops of a fold, base products and shifted points by transform, compute the report. |
| CompressionLoops.LastReport | emp-zk/mvzk/zk/prover.h:245-255 | The loops of the last round, with the masking pair and the Lagrange table, compute the report on 2m+1 points. |
| CompressionLoops.FoldLoop | emp-zk/mvzk/zk/prover.h:221-229 | The double loop over chunks evaluates, entry by entry, the polynomials through the chunks at the challenge. |
| CheckRuns.ProverCheck | emp-zk/mvzk/zk/prover.h:147-281 | The prover's whole check, loop and last round, sends the messages of the specified run and ends with its triple or its abort. |
| CheckRuns.VerifierCheck | emp-zk/mvzk/zk/verifier.h:239-361 | A verifier's whole check on its three lanes ends with the shares, or the abort, of the specified run. |
| OpenCheck.Reconstruct | emp-zk/mvzk/zk/verifier.h:383-392 | Own row first and everybody else's in order, skipping oneself, is the sum of all rows, for every verifier. |
| OpenCheck.MacCheckZero | emp-zk/mvzk/zk/verifier.h:398-423 | Every verifier publishes its row plus its zero share; the published values are accepted exactly if the unmasked ones add up to zero in every entry. |
| ZeroShares.ZeroSharesOf | emp-zk/mvzk/mesh.h:94-127 | One verifier's loops, dealing and then listening backwards around the ring, compute what it was dealt minus what it dealt. |
| ZeroShares.AllSharesCancel | emp-zk/mvzk/mesh.h:94-127 | Together the masks are shares of zero, whatever anybody dealt: the hypothesis of the MAC check. |
| ZeroShares.OneDealerSuffices | emp-zk/mvzk/mesh.h:94-127 | For any given shares of zero and whatever the others deal, exactly one choice of a single verifier's values leads to them. |
| SharePrivacy.OneMaskingFits | emp-zk/mvzk/zk/verifier.h:400-423 | What is published of some contributions to a MAC check is published of any others with the same sum, under exactly one choice of masks, which are shares of zero too. |
| OpenCheck.OpenAndCheck | emp-zk/mvzk/zk/verifier.h:381-396 | Accepts exactly if the MACs vouch for the three opened sums and the third is the product of the others; what is published of the MAC errors is masked. |
| OpenCheck.AcceptsProduct | emp-zk/mvzk/zk/verifier.h:381-396 | Authentic shares of (x, y, z) are vouched for, and open to a product exactly if z = x*y. |
| OpenCheck.PublicCheckExact | emp-zk/mvzk/zk/verifier.h:425-450 | The combination of MACs vouches for the claimed values exactly if Delta times the combined difference to the true values is zero. |
| OpenCheck.PublicAcceptsExactly | emp-zk/mvzk/zk/verifier.h:425-450 | For any shares, MACs right or wrong, and any claimed values: they are accepted exactly if the combination of the gaps between MACs and claims vanishes. |
| OpenCheck.OneCoefficientOpens | emp-zk/mvzk/zk/verifier.h:425-450 | Of the coefficients of a wire whose MAC does not vouch for the claim, the others fixed, at most one value lets the claims pass. |
| OpenCheck.AuthenticGaps | emp-zk/mvzk/zk/verifier.h:425-450 | On authentic wires the gaps are Delta times the differences; with a nonzero Delta exactly the wrongly claimed wires have one. |
| OpenCheck.CheckPublic | emp-zk/mvzk/zk/verifier.h:425-450 | The check of wires against public values, run on any shares, decides whether the gaps combine to zero; on authentic ones it always accepts the true values. |
| AuthShares.AuthLinear | emp-zk/mvzk/zk/verifier.h:308-326 | Every linear map applied by each verifier to its three lanes turns authentic shares of v into authentic shares of the image of v. |
| AuthShares.AuthPublic | emp-zk/mvzk/zk/verifier.h:213-226 | Preprocessed shares plus a public difference (verifier 0 adds it, everyone lowers its key) are authentic shares of the sum. |
| CheckDelivery.AddSharesDiff | emp-zk/mvzk/zk/prover.h:124-134 | The loop of the broadcast: the values minus the preprocessed secrets from the draw's place in the buffer on. |
| CheckDelivery.AddSharesFromDiff | emp-zk/mvzk/zk/verifier.h:213-228 | A verifier's loop: its buffers from the same place on, the differences added as `AuthShares.AuthPublic` has it. |
| CheckDelivery.DrawAuthentic | emp-zk/mvzk/zk/verifier.h:213-228 | Across all preprocessed sharings of a draw, the verifiers' buffers are authentic shares of the prover's secrets, entry by entry. |
| CheckDelivery.CheckArrives | emp-zk/mvzk/zk/verifier.h:290-338 | All messages of a check, each broadcast at its own draw, arrive as authentic shares, whatever they are. |
| CheckDelivery.RunAccepted | emp-zk/mvzk/zk/verifier.h:239-396 | From correlations to verdicts: a program without false claims, run on any pairwise correlations with every party's own buffers and pointers, has every check accepted at every chi and all challenges off the interpolation points. |
| CheckDelivery.RunVerdict | emp-zk/mvzk/zk/verifier.h:239-396 | In such a run, against any strategy, a check accepts exactly where the strategy passes. |
| MultCheck.InitSharesHold | emp-zk/mvzk/zk/verifier.h:263-276 | From shares of the recorded triples, every verifier's weighted and padded lanes share the prover's inner-product claim. |
| MultCheck.VerdictExact | emp-zk/mvzk/zk/verifier.h:239-396 | For any messages whoever sent them, the verifiers accept exactly if no challenge aborts and the triple determined by the messages satisfies z = x*y. |
| MultCheck.CheckComplete | emp-zk/mvzk/zk/verifier.h:239-396 | For every list of right triples the honest prover is accepted at every list of challenges off the interpolation points. |
| CheckSoundness.FewAccept | emp-zk/mvzk/zk/verifier.h:290-362 | For every adaptive prover strategy and a false claim, the accepted challenge sequences over a set C number at most the bound for that many rounds. |
| CheckSoundness.AcceptingCounts | emp-zk/mvzk/zk/verifier.h:290-362 | The counted quantity is the number of words over C on which the run is accepted. |
| CheckSoundness.PassesIsOutcome | emp-zk/mvzk/zk/verifier.h:290-362 | A strategy passes on a word exactly if its messages have an outcome with z = x*y. |
| CheckCounts.WordsAre | emp-zk/mvzk/zk/verifier.h:290-362 | The words over C are exactly the challenge lists of that length with entries in C. |
| CheckCounts.WordsCount | emp-zk/mvzk/zk/verifier.h:290-362 | There are size of C to the power of the rounds of them. |
| CheckCounts.WordsDiffer | emp-zk/mvzk/zk/verifier.h:290-362 | With different entries in C each word is listed once. |
| CheckCounts.SentAsChosen | emp-zk/mvzk/zk/prover.h:212-218 | A strategy's message in every round is what it chooses from the challenges so far, whenever that has the size the verifiers read. |
| CheckCounts.CheatsCount | emp-zk/mvzk/zk/verifier.h:263-362 | The cheats bounded by `CheckSoundness.CheckIsSound` are the accepted challenge words, added up over all lists of coefficients from C. |
| CheckSoundness.CheckIsSound | emp-zk/mvzk/zk/verifier.h:239-396 | If some recorded triple is wrong, then of all coefficients and challenges from C at most the fraction (1 + 2m*rounds) / size of C lets any strategy pass. |
| CheckPoints.ParamsGood | emp-zk/mvzk/zk/compress.h:19-22 | Odd powers, the even powers between them, and 1..2m+1 are distinct points, given a suitable root and that 1..2m are nonzero. |
| PackedAuth.RandSharesAuthentic | emp-zk/mvzk/zk/auth.h:123-153 | From M^i_j = K^j_i + u^i*Delta_j, the converted shares of all verifiers satisfy sum mac = sum key + Delta*secret in every slot. |
| PackedAuth.DealtSharesKey | emp-zk/mvzk/zk/verifier.h:74-85 | What one dealer hands out lies on a polynomial of degree at most n-k with its key at the chosen secret point. |
| PackedAuth.KeySharesAdd | emp-zk/mvzk/zk/verifier.h:86-100 | The dealers' sharings add up to a sharing of the sum of their keys. |
| SharePrivacy.OneDealFits | emp-zk/mvzk/zk/verifier.h:74-85 | Any n-k verifiers, whatever shares of a key they hold: for every key there is exactly one choice of the dealer's n-k random values that hands these out. |
| PackedAuth.ProductSharing | emp-zk/mvzk/zk/verifier.h:204-209 | Degree k-1 times degree n-k is degree n-1: the local products are read off as difference times key at the slot. |
| PackedAuth.GenSharesAuthentic | emp-zk/mvzk/zk/verifier.h:196-211 | After the packed differences arrive, the verifiers hold authentic shares of secret + difference in every slot. |
| PackedExact.GenSharesExactly | emp-zk/mvzk/zk/verifier.h:196-211 | For any n values sent, the shares add up to secret plus interpolant, and are authentic exactly if the MAC of every slot comes out right. |
| Reveals.FlushFirst | emp-zk/mvzk/int_fp.h:102-127 | The flush with which every opening starts leaves nothing pending and changes no value, so the theorems on openings apply to every program. |
| Reveals.OpenedAuthentic | emp-zk/mvzk/int_fp.h:102-127 | After a flush every verifier can form every slot to be opened, and the shares are authentic for the prover's values as a vector. |
| Reveals.TrueRevealPasses | emp-zk/mvzk/int_fp.h:102-127 | After a flush the true values of any slots of any run are accepted, at every chi. |
| Reveals.FalseRevealIsCaught | emp-zk/mvzk/int_fp.h:102-127 | With a nonzero Delta a claim that is wrong in one slot is accepted, the other coefficients fixed, at no more than one value of that slot's coefficient. |
| Reveals.BatchGaps | emp-zk/mvzk/zk/verifier.h:196-211 | For any n values sent and any claim, a slot's MAC vouches for the claim exactly if the local products read off as the claimed difference times Delta. |
| Reveals.ImproperGaps | emp-zk/mvzk/zk/verifier.h:196-211 | The values that the shares of any batch add up to are vouched for exactly in the slots whose MAC comes out right. |
| PackedExact.MacRightExactly | emp-zk/mvzk/zk/verifier.h:204-209 | For any n values sent, the MAC of a slot comes out right for every sharing of every key if and only if the values are a packing of degree k-1. |
| PackedAuthRun.Correlations.Refill | emp-zk/mvzk/zk/auth.h:84-101 | A refill starts the next extend at position 0. |
| PackedAuthRun.Correlations.RandAuthVal | emp-zk/mvzk/zk/auth.h:104-153 | Across any number of refills, a call converts the next num correlations of the whole run, in order, refilling only when the buffer is exhausted. |
| PackedAuthRun.ConvertCorr | emp-zk/mvzk/zk/auth.h:133-148 | One verifier's loop over the other verifiers and its three conversions compute its share. |
| PackedAuthRun.DealKey | emp-zk/mvzk/zk/verifier.h:76-85 | The dealing loops hand out the specified sharing of the key. |
| PackedAuthRun.SumDealt | emp-zk/mvzk/zk/verifier.h:86-100 | Adding up what the dealers sent gives the sum over dealers. |
| PackedAuthRun.GenSharesLoop | emp-zk/mvzk/zk/verifier.h:196-211 | The loop over the k slots computes the verifier's shares of the batch. |
| PackedAuthRun.SharesAt | emp-zk/mvzk/zk/verifier.h:196-211 | A verifier's shares of a batch, read from its three buffers at its own pointer. |
| PackedAuthRun.FillSecrets | emp-zk/mvzk/zk/auth.h:104-153 | The prover's refill lays the next correlations of the stream, converted, one after another into its buffer. |
| PackedAuthRun.FillLanes | emp-zk/mvzk/zk/auth.h:104-153 | A verifier's refill does so in its three lanes. |
| Delivery.BatchArrives | emp-zk/mvzk/zk/verifier.h:145-168 | What the prover sends for a batch, converted by every verifier, is authentic for the wires of the batch: the hypothesis of the lockstep theorems. |
| RunDelivery.BasesAuthentic | emp-zk/mvzk/zk/verifier.h:189-211 | With the prover's and the verifiers' refills read off the same correlations, the verifiers' buffers at a spot are authentic shares of the prover's secrets there. |
| RunDelivery.RunArrives | emp-zk/mvzk/zk/verifier.h:145-211 | For every program: if each batch in the outbox is masked at its own spot and every verifier converts it on top of its own buffers at its own pointer, all packed sharings of the run arrive authentically. |
| RunDelivery.OutboxArrives | emp-zk/mvzk/zk/prover.h:74-88 | So the outbox with which the prover's object ends any program arrives. |
| Draws.RoomForValues | emp-zk/mvzk/zk/prover.h:124-134 | A round draws the least number of packed sharings that has room for the values it shares. |
| Draws.CheckDrawsFit | emp-zk/mvzk/zk/verifier.h:290-338 | The rounds of a check draw one after another, inside a refill each, for 2m-2 values in a fold and 2m+2 in the last round. |
| Draws.DrawsApart | emp-zk/mvzk/zk/verifier.h:186-194 | Over every program, all draws of batches and of check rounds are of different preprocessed sharings, in ascending order, and each batch is sent at a draw of its own. |
| PackedPoly.PointsDistinct | emp-zk/mvzk/utils/poly.h:49-54 | Party points are distinct, secret points are distinct, and for k < n no secret point is a party point. |
| PackedPoly.RoundTrip | emp-zk/mvzk/utils/poly.h:64-99 | Packing k secrets and reading them back is the identity. |
| PackedPoly.SharesAddUp | emp-zk/mvzk/utils/poly.h:127-132 | On arbitrary party values, the sum over parties of their local additive shares is the conversion. |
| PackedPoly.ShiftedAreSecret | emp-zk/mvzk/utils/poly.h:59-61 | For k < n the points reached by the offset are the secret points. |
| PackedPoly.ReadsSecretsExactly | emp-zk/mvzk/utils/poly.h:37-62 | Reading by offset is right for every sharing exactly if k < n, or n = 1; the constructor also admits k = n, where it reads the next even powers. |
| PolyConversions.Poly.constructor | emp-zk/mvzk/utils/poly.h:37-62 | Builds the two transforms and the point tables, offset powers included. |
| PolyConversions.Poly.NttEvalN2K | emp-zk/mvzk/utils/poly.h:65-81 | Fails exactly on a wrong length; otherwise the values at the shifted points of the interpolant of any n party values, and for k < n at the secret points. |
| PolyConversions.Poly.NttEvalK2N | emp-zk/mvzk/utils/poly.h:84-99 | Fails exactly on a wrong length; otherwise the n party values of the degree-(k-1) interpolant of the secrets. |
| PolyConversions.Poly.NttEvalN2N | emp-zk/mvzk/utils/poly.h:102-114 | Fails exactly on a wrong length; otherwise the values of the interpolant at the even powers. |
| LagrangeTables.LagrangeCoeffLoop | emp-zk/mvzk/utils/poly.h:159-167 | Running numerator and denominator over all other points give the Lagrange coefficient. |
| LagrangeTables.FillDivisors | emp-zk/mvzk/zk/compress.h:23-34 | The tabulated inverses are those of the products of point differences. |
| LagrangeTables.ComputeLagCoeff | emp-zk/mvzk/zk/compress.h:38-51 | With the tabulated divisors, the row of Lagrange coefficients at the challenge. |
| LagrangeTables.CoefficientTable | emp-zk/mvzk/utils/poly.h:169-180 | Row i of a table holds the Lagrange coefficients at target i. |
| LagrangeTables.EvalTable | emp-zk/mvzk/utils/lagrange.h:27-37 | A table applied to values at the source points gives the interpolant's values at the target points. |
| LagrangeTables.EvalOne | emp-zk/mvzk/utils/poly.h:127-132 | One column of the table scales a party's value to its additive shares. |
| Interpolation.LagrangeExact | emp-zk/mvzk/utils/poly.h:159-167 | Lagrange coefficients reproduce every polynomial of at most as many coefficients as points, at every argument. |
| Polynomials.AgreeEverywhere | emp-zk/mvzk/zk/compress.h:38-51 | Polynomials of at most n coefficients that agree in n points agree everywhere. |
| Bits.ReverseBits | emp-zk/mvzk/utils/utils.h:10-17 | The loop reverses the lowest bits. |
| Bits.RevTwice | emp-zk/mvzk/utils/utils.h:10-17 | Bit reversal is its own inverse. |
| NttCorrect.FillTable | emp-zk/mvzk/utils/ntt.h:28-42 | Entry j of a twiddle table is the root to the power of j's reversed bits. |
| Ntt.NttInplace | emp-zk/mvzk/utils/ntt.h:45-62 | The butterfly loops apply the stages t = n/2, ..., 1, in place. |
| Ntt.InttInplace | emp-zk/mvzk/utils/ntt.h:64-83 | The inverse loops apply the inverse stages t = 1, ..., n/2 and the final scaling, in place. |
| NttCorrect.ForwardEvaluates | emp-zk/mvzk/utils/ntt.h:45-62 | For every power-of-two size the forward transform leaves f(psi^(2 rev(i)+1)) at index i. |
| NttInverse.StagesCancel | emp-zk/mvzk/utils/ntt.h:45-83 | Any k inverse stages after the matching forward ones, and conversely, multiply by 2^k. |
| NttInverse.InverseOfForward | emp-zk/mvzk/utils/ntt.h:64-83 | The inverse transform recovers the coefficients from the forward transform. |
| NttInverse.InverseInterpolates | emp-zk/mvzk/utils/ntt.h:64-83 | On arbitrary values the inverse transform leaves coefficients that take those values at the transform's points. |
| NttFixed.FixDegreeInplace | emp-zk/mvzk/utils/ntt.h:87-114 | Duplication and the merging stages, in place, for every input size up to n. |
| NttFixed.FixDegreeEvaluates | emp-zk/mvzk/utils/ntt.h:87-114 | From the bit-reversed coefficients of f, the fixed-degree transform leaves f(psi^(2i+1)) in natural order. |
| Transforms.Transform.constructor | emp-zk/mvzk/utils/ntt.h:24-43 | Builds both twiddle tables and 1/n. |
| Transforms.Transform.ForwardInplace | emp-zk/mvzk/utils/ntt.h:116-119 | Rejects a wrong length untouched; otherwise leaves the evaluations in bit-reversed order. |
| Transforms.Transform.BackwardInplace | emp-zk/mvzk/utils/ntt.h:124-127 | Rejects a wrong length untouched; otherwise leaves the coefficients that take the given values. |
| Transforms.Transform.ForwardFixDegree | emp-zk/mvzk/utils/ntt.h:120-123 | Evaluations of the short polynomial in natural order. |
| Fp59.Mod | emp-zk/mvzk/fields/fp59.h:107-113 | Every 64-bit word is reduced to its residue. |
| Fp59.AddMod | emp-zk/mvzk/fields/fp59.h:115-118 | The sum modulo p, also for b = p as subtraction uses it. |
| Fp59.MultMod | emp-zk/mvzk/fields/fp59.h:120-131 | The product modulo p for all a, b < p. |
| Fp59.BelowThreeP | emp-zk/mvzk/fields/fp59.h:124-130 | The value before the last two subtractions neither wraps nor reaches 3p. |
| Fp59.MultTailExact | emp-zk/mvzk/fields/fp59.h:124-130 | From the two words of any product up to (p-1)^2, the tail computes its residue. |
| Fp59.VecModAgrees | emp-zk/mvzk/fields/fp59.h:153-159 | Both lanes reduce any word as the scalar form does, signed comparison included. |
| Fp59.VecAddAgrees | emp-zk/mvzk/fields/fp59.h:183-185 | Lane-wise addition is the scalar addition. |
| Fp59.VecMultAgrees | emp-zk/mvzk/fields/fp59.h:160-179 | The two-lane product is the scalar product in each lane. |
| Fp59Inverse.ModInv | emp-zk/mvzk/fields/fp59.h:133-144 | Rejects zero only; the signed Euclidean loop stays within 64 bits and ends with the reduced inverse. |
| Fp59Inverse.InvOfCorrect | emp-zk/mvzk/fields/fp59.h:133-144 | The specified Euclidean recursion returns the inverse for every nonzero residue. |
| Fp59Field.SubIs | emp-zk/mvzk/fields/fp59.h:56 | Subtraction by adding p - b is the field's subtraction. |
| Fp59Field.F59Laws | emp-zk/mvzk/fields/fp59.h:54-67 | The code's operations on residues satisfy all field laws. |
| Fp59Prime.PIsPrime | emp-zk/mvzk/fields/fp59.h:20 | p = 2^59 - 2^28 + 1 is prime. |
| Fp59Prime.ThreeGenerates | emp-zk/mvzk/fields/fp59.h:24 | 3 generates the multiplicative group: no proper quotient of p - 1 sends it to 1. |
| Fp59Roots.PrimitiveRoot | emp-zk/mvzk/utils/poly.h:212-226 | Fails for degree 0 only; otherwise the bit loop returns 3 to the field quotient (p-1)/degree with its lowest bit cleared. |
| Fp59Roots.ExponentIs | emp-zk/mvzk/utils/poly.h:220-221 | For the powers of two up to 2^28 the field quotient is the integer quotient. |
| Fp59Roots.RootExactly | emp-zk/mvzk/utils/poly.h:212-226 | That is a root with psi^(2^(j-1)) = -1 exactly for j up to 27; for degree 2^28, which divides p - 1, it is not. |
| Fp59Roots.RootsMatch | emp-zk/mvzk/utils/poly.h:42-45 | The roots chosen for k and for n are related as the conversions assume. |
| Fp59Roots.RootsSuit | emp-zk/mvzk/utils/poly.h:37-62 | The hypotheses of all conversion theorems hold in the code's field for n up to 2^26. |
| Fp59Roots.CheckPointsGood | emp-zk/mvzk/zk/compress.h:19-35 | The hypotheses of all check theorems hold in the code's field, m = 16 included. |
| Fp59Roots.LastPointsAre | emp-zk/mvzk/utils/lagrange.h:22-26 | The points of the last round are the numbers 1, 2, ..., 2m + 1. |
| Wires.TakeInRange | emp-zk/mvzk/zk/prover.h:118-134 | What is drawn lies inside the current refill, and asking for room twice before drawing, as the verifiers do, changes nothing. |
| Lockstep.AuthPub | emp-zk/mvzk/int_fp.h:133-139 | A public constant is shared authentically: verifier 0 holds it and all keys sum to -c*Delta. |
| Lockstep.AuthLin | emp-zk/mvzk/int_fp.h:140-148 | Adding a multiple of one authentic sharing to another is authentic for the combination. |
| Lockstep.SlotFormed | emp-zk/mvzk/int_fp.h:150-165 | Once the shared slots before it have arrived, every verifier can form every slot and the shares are authentic for the prover's value. |
| Lockstep.FormedIfAny | emp-zk/mvzk/int_fp.h:150-165 | What one verifier can form all can, authentically. |
| Lockstep.FillsAuth | emp-zk/mvzk/zk/verifier.h:145-168 | Filling a batch in program order keeps all arrived shares and all recorded triples authentic, product inputs being resolved before their output is written. |
| Lockstep.TriplesBounded | emp-zk/mvzk/zk/verifier.h:169 | Never more than multGateBufSz + k - 1 triples are held. |
| LockstepRuns.CheckKeeps | emp-zk/mvzk/zk/prover.h:109-112 | A check at a moment with nothing pending empties all parties' buffers alike. |
| LockstepRuns.BatchKeeps | emp-zk/mvzk/zk/verifier.h:145-170 | Sending and filling a batch, and the check it may trigger, keeps prover and verifiers in lockstep. |
| LockstepRuns.StepKeeps | emp-zk/mvzk/int_fp.h:53-98 | Every operation, flushes and finalize included, keeps the lockstep. |
| LockstepRuns.RunsInStep | emp-zk/mvzk/int_fp.h:53-130 | Over every legal program and every flush pattern the lockstep holds. |
| LockstepRuns.LockstepHolds | emp-zk/mvzk/zk/prover.h:59-134 | So refills, batches and checks happen at the same points, the buffers suffice, and each check runs on authentic shares of the prover's triples in the same order. |
| LockstepRuns.SlotsAuthentic | emp-zk/mvzk/int_fp.h:53-98 | Every slot that some verifier can form, or any slot when nothing is pending, is formed by all with shares authentic for the prover's value. |
| ProgramChecks.RunRight | emp-zk/mvzk/int_fp.h:53-98 | All triples of a run are right exactly if the program makes no false claim about a product, and no check is empty. |
| ProgramLedger.RunHandsOver | emp-zk/mvzk/int_fp.h:53-98 | For every program: the prover's values are the program's meaning; the triples of all checks and those still held are its products, in order; the wires of all packed sharings and those pending are its inputs and products, in order; and both are counted right. |
| ProgramLedger.RunPunctual | emp-zk/mvzk/zk/prover.h:74-113 | A packed sharing goes out with k wires, or with fewer but some if the program flushes; a check runs on multGateBufSz up to multGateBufSz + k - 1 triples, or on fewer if it finalizes; never are more held. |
| ProgramChecks.CheckRecorded | emp-zk/mvzk/zk/verifier.h:239-276 | Every check of every run works on authentic shares of the prover's triples. |
| ProgramChecks.EveryCheckAccepts | emp-zk/mvzk/zk/verifier.h:239-396 | Every check of a run without false claims accepts, at every chi and all challenges off the interpolation points. |
| ProgramChecks.StrategyVerdict | emp-zk/mvzk/zk/verifier.h:239-396 | A check of a run accepts exactly where the prover's strategy passes. |
| ProgramChecks.FalseClaimIsCaught | emp-zk/mvzk/zk/verifier.h:239-396 | A finalized program with a false claim has a check that at most the fraction (1 + 2m*rounds) / size of C of all coefficients and challenges lets any strategy pass. |
| ValueLanes.AcceptedIsProduct | emp-zk/mvzk/zk/verifier.h:239-396 | On any shares, MACs right or wrong: acceptance means that no challenge aborts and that, for the values the shares and messages add up to, the outcome has z = x*y. |
| AnyShares.EffectiveIsProgram | emp-zk/mvzk/int_fp.h:53-98 | If what arrives adds up to what the prover means, the effective program has the same run and makes a false claim exactly if the program does. |
| AnyShares.SlotAddsUp | emp-zk/mvzk/zk/verifier.h:145-211 | Whatever is sent as packed sharings, a slot that some verifier can form is formed by all, and its shares add up to the slot's value in the effective program. |
| AnyShares.CheckAddsUp | emp-zk/mvzk/zk/verifier.h:239-276 | Whatever is sent, the shares in every check add up to the triples of the effective program. |
| AnyShares.AcceptedPasses | emp-zk/mvzk/zk/verifier.h:239-396 | Whatever is sent as packed sharings, before a check and in it: where the verifiers accept, the strategy that the messages add up to passes for the effective program. |
| AnyShares.FalseProgramIsCaught | emp-zk/mvzk/zk/verifier.h:239-396 | If what arrives adds up to a finalized program with a false claim, some check lets at most the fraction (1 + 2m*rounds) / size of C of all coefficients and challenges pass, for any strategy. |
| LazyExec.EvalLinear | emp-zk/mvzk/int_fp.h:140-148 | Over filled slots the loop computes the slot's meaning. |
| LazyExec.Materialize | emp-zk/mvzk/int_fp.h:150-165 | The stack loop ends on every DAG, fills the slot with its meaning, and never reaches its error. |
| LazyExec.FillOne | emp-zk/mvzk/zk/verifier.h:152-166 | Filling one pending wire resolves a product's inputs first, records the triple and agrees with the eager form; the error is out of reach. |
| VerifierExec.Exec.EnsurePreAuth | emp-zk/mvzk/zk/verifier.h:189-194 | Refills exactly if fewer than num sharings are left. |
| VerifierExec.Exec.VerifyAuthTriple | emp-zk/mvzk/zk/verifier.h:239-243 | A check takes the preprocessed sharings of all its rounds and empties the buffer. |
| VerifierExec.Exec.ShareBatch | emp-zk/mvzk/zk/verifier.h:145-170 | The lazy object after a batch stands for the eager verifier after a batch, without error. |
| VerifierExec.Exec.Feed | emp-zk/mvzk/int_fp.h:54-60 | A new pending input; refines the eager step, batch at every k-th included. |
| VerifierExec.Exec.PubConst | emp-zk/mvzk/int_fp.h:61-67 | A public constant is ready at once; refines the eager step. |
| VerifierExec.Exec.Linear | emp-zk/mvzk/int_fp.h:69-82 | Evaluated at once or kept symbolically, the slot refines the eager step. |
| VerifierExec.Exec.Mult | emp-zk/mvzk/int_fp.h:83-98 | A product is pending with unresolved inputs; refines the eager step and meets no error. |
| VerifierExec.Exec.Flush | emp-zk/mvzk/zk/verifier.h:114-119 | A partial batch is padded and filled; refines the eager step. |
| VerifierExec.Exec.Finalize | emp-zk/mvzk/zk/verifier.h:183-186 | Flush and check what is recorded; refines the eager step. |
| VerifierExec.Exec.Open | emp-zk/mvzk/int_fp.h:166-170 | After a flush every slot can be resolved for an opening, to its meaning, without error. |
| ProverExec.Exec.SendBatch | emp-zk/mvzk/zk/prover.h:76-88 | The batch goes out as differences to the k preprocessed secrets at the pointer of the current refill, recorded with that spot; `RunDelivery.OutboxArrives` says that it is the right one. |
| ProverExec.Exec.ShareBatch | emp-zk/mvzk/zk/prover.h:76-90 | A batch, and the check once enough triples are held; refines the specified step. |
| ProverExec.Exec.Mult | emp-zk/mvzk/zk/backend.h:81-85 | Records the triple before the product is shared; refines the specified step. |
| ProverExec.Exec.Linear | emp-zk/mvzk/int_fp.h:69-76 | The accumulated combination; refines the specified step. |
| ProverExec.Exec.Finalize | emp-zk/mvzk/zk/prover.h:109-112 | Flush and check what is recorded; refines the specified step. |
| Shuffles.BitsFor | emp-zk/emp-zk-bool/zk_perm_proof.h:380-386 | The least width of at least 1 that holds 0..hi. |
| Shuffles.RoomToDouble | emp-zk/emp-zk-bool/zk_perm_proof.h:380-386 | That width leaves room for 2*hi exactly if hi is zero or a power of two. |
| ZkSet.SetSoundness | emp-zk/emp-zk-bool/zk_set.h:32-68 | With fewer queries than versions, a passing check puts every queried value in {1..T}, versions wrapping modulo 2^ver_sz. |
| ZkSet.SetSoundExactly | emp-zk/emp-zk-bool/zk_set.h:32-68 | Membership is proved exactly as long as there are fewer queries than versions. |
| ZkSet.HonestBalance | emp-zk/emp-zk-bool/zk_set.h:45-58 | Over any in-range queries the writes not yet read are exactly (e, ver[e]), and no version overflows. |
| ZkSet.HonestSetPasses | emp-zk/emp-zk-bool/zk_set.h:45-68 | The honest prover always passes. |
| ZkSet.ZKSet.constructor | emp-zk/emp-zk-bool/zk_set.h:32-41 | Setup writes version 0 of every element and is balanced. |
| ZkSet.ZKSet.ProveMember | emp-zk/emp-zk-bool/zk_set.h:45-58 | Emits a read and a write, updates the version of an in-range value only, and keeps the balance for members. |
| ZkSet.ZKSet.Check | emp-zk/emp-zk-bool/zk_set.h:61-68 | Accepts exactly if reads and writes are equal multisets; within T queries, exactly if the run of queries passes, and never if one is outside {1..T}. |
| ZkRam.PastReadsAreSequential | emp-zk/emp-zk-bool/zk_ram.h:101-138 | If reads match writes and every old time is in the past, every access hits a cell and returns the latest value: the read-only memory's condition. |
| ZkRam.MemIsLastWrite | emp-zk/emp-zk-bool/zk_ram.h:130-133 | A cell holds the value of the last access to it, or the initial one. |
| ZkRam.TwoShufflesMakeARam | emp-zk/emp-zk-bool/zk_ram.h:86-138 | For every prover: if 2T <= 2^time_sz, both shuffles passing forces a sequential memory. |
| ZkRam.FutureReadPasses | emp-zk/emp-zk-bool/zk_ram.h:118-122 | If 2T exceeds 2^time_sz, a run passes both shuffles and returns a value nobody wrote. |
| ZkRam.RamSecureExactly | emp-zk/emp-zk-bool/zk_ram.h:49-56 | With the width computed from T, every passing run is sequential exactly if T is zero or a power of two. |
| ZkRam.RomSecureExactly | emp-zk/emp-zk-bool/zk_ram.h:151-159 | Read-only, with the width computed from T, every passing run of loads returns the setup values exactly if T is zero. |
| ZkRam.SelfReadPasses | emp-zk/emp-zk-bool/zk_ram.h:20-27 | Shuffle 1 alone lets a load read its own write-back with any value. |
| ZkRam.SettledStep | emp-zk/emp-zk-bool/zk_ram.h:103-138 | An honest in-range access keeps writes minus reads equal to the current cells, the run sequential, and asks the set for a value in {1..clock}. |
| ZkRam.ZKRam.constructor | emp-zk/emp-zk-bool/zk_ram.h:61-76 | Setup writes every cell at time 0 and is balanced. |
| ZkRam.ZKRam.Perform | emp-zk/emp-zk-bool/zk_ram.h:103-138 | One access, in range or not: both records, the set query, the cell update; in-range accesses keep the balance, and beyond the cells it reads the default and changes no cell. |
| ZkRam.StrayUnbalanced | emp-zk/emp-zk-bool/zk_ram.h:105-113 | A run with an access beyond the cells that reads defaults, as the code does, is never balanced, whatever the final cells. |
| ZkRam.ZKRam.Check | emp-zk/emp-zk-bool/zk_ram.h:87-98 | Accepts exactly if the run so far passes (read-only: if shuffle 1 balances), for at most T accesses; a balanced object is accepted, and one with an access beyond the cells never is, in either mode. |
| PermBinding.OneDeltaOpens | emp-zk/emp-zk-bool/zk_perm_proof.h:323-340 | Wires bound to different values open as equal under at most one Delta, whatever two MACs are sent. |
| PermBinding.FiveDeltasAccept | emp-zk/emp-zk-bool/zk_perm_proof.h:46-82 | If chi does not hide the errors of a batch of five-factor products, at most five Delta accept it, whatever five sums are sent. |
| PermBinding.TwoDeltasAccept | emp-zk/emp-zk-bool/zk_bool_verifier.h:273-313 | If chi does not hide the errors of a batch of two-factor products, at most two Delta accept it, whatever mask is held and whatever two sums are sent. |
| PermBinding.FewSeedsHide | emp-zk/emp-zk-bool/zk_perm_proof.h:46-82 | Of the seeds whose powers are the coefficients of a batch, at most as many as it has products hide a wrong one. |
| PermBinding.OneValueHides | emp-zk/emp-zk-bool/zk_bool_verifier.h:293-313 | With independent coefficients, the others fixed, at most one value of a wrong product's coefficient hides it. |
| PermSound.VerifierFollows | emp-zk/emp-zk-bool/zk_perm_proof.h:301-321 | The verifier's evaluation, adding the challenge to its keys, multiplies and ends with the keys of what the prover multiplies and ends with. |
| PermSound.ChecksWhatItMultiplied | emp-zk/emp-zk-bool/zk_perm_proof.h:239-321 | The five-factor products in the batches are, in keys and in order, those of the verifier's evaluation of the two lists; each two-factor product is in some batch of the engine. |
| PermSound.FewDeltasPass | emp-zk/emp-zk-bool/zk_perm_proof.h:239-340 | If the products of the two lists differ at r and chi hides no wrong product in any batch (`Unhidden`), at most five Delta let the opening and all batches pass, whatever outputs were committed and whatever is sent. |
| PermSound.FewChallengesCheat | emp-zk/emp-zk-bool/zk_perm_proof.h:239-340 | Lists that are not permutations pass under more than five Delta, with no wrong product hidden by chi (`Unhidden`), at fewer challenges than they have elements, for every prover. |
| PermComplete.PermutationsAccepted | emp-zk/emp-zk-bool/zk_perm_proof.h:239-340 | For permutations, a prover that commits right products and sends the sums and MACs of the code is accepted at every challenge, under every Delta and with all coefficients. |
| PermComplete.RightOutputs | emp-zk/emp-zk-bool/zk_perm_proof.h:263-340 | For every list, challenge and choice of MACs there are outputs that are all right. |
| PermProof.PackedGood | emp-zk/emp-zk-bool/zk_perm_proof.h:350-378 | A block of authentic bits packs to an authentic field element. |
| PermProof.PackRecordGood | emp-zk/emp-zk-bool/zk_perm_proof.h:350-378 | So does a record of any width, block by block. |
| PermProof.PackInjective | emp-zk/emp-zk-bool/zk_perm_proof.h:350-378 | With independent powers of X, records of equal width pack to equal field elements only if they are equal bit by bit. |
| PermProof.OneBitPacks | emp-zk/emp-zk-bool/zk_perm_proof.h:343-375 | Bit i of a block is worth the i-th power of X. |
| PermProof.PermutationsAgree | emp-zk/emp-zk-bool/zk_perm_proof.h:301-321 | Permutations have equal products at every challenge. |
| PermProof.ProductTestSoundness | emp-zk/emp-zk-bool/zk_perm_proof.h:239-260 | Lists of the same length that are not permutations have equal products at fewer challenges than they have elements. |
| PermProof.PolyPrdt | emp-zk/emp-zk-bool/zk_perm_proof.h:103-143 | The coefficient expansion with skipped top term and folded-in MAC, for 3, 4 and 5 factors. |
| PermProof.ProductStepExact | emp-zk/emp-zk-bool/zk_perm_proof.h:84-154 | With valid MACs, prover's and verifier's side differ by Delta^N * (product + committed output). |
| PermProof.ProductStepIff | emp-zk/emp-zk-bool/zk_perm_proof.h:84-154 | With Delta nonzero they agree exactly if the committed output is the product. |
| PermProof.EvalProduct | emp-zk/emp-zk-bool/zk_perm_proof.h:301-321 | The result is an authentic wire of the product of (r - e); every factor goes into exactly one product, in order, fours first, each product starting from the one before, and every one multiplies correctly. |
| PermComplete.LoopsEvaluate | emp-zk/emp-zk-bool/zk_perm_proof.h:301-321 | The products the loops leave behind are those of the test that `PermSound` is about: the fives, then the twos, ending with the same wire. |
| PermProof.OpenEqExact | emp-zk/emp-zk-bool/zk_perm_proof.h:323-340 | With the MACs the prover holds, authentic product wires compare equal exactly if their values are. |
| PermProof.CheckEq | emp-zk/emp-zk-bool/zk_perm_proof.h:239-260 | For a prover that follows the code: accepts exactly if the lengths and the products at r are equal; always for permutations. |
| PermProof.CombineEval | emp-zk/emp-zk-bool/zk_perm_proof.h:46-82 | Combining the buffers and evaluating is combining the evaluations. |
| PermProof.BatchCheckExact | emp-zk/emp-zk-bool/zk_perm_proof.h:46-82 | For any number of products the two sides agree exactly if the chi-combination of the errors vanishes. |
| ArithEngine.Triples.constructor | emp-zk/emp-zk-arith/ostriple.h:282-286 | One correlation is drawn, then the buffer is filled. |
| ArithEngine.Triples.CheckAndRefill | emp-zk/emp-zk-arith/ostriple.h:397-401 | The check takes the mask after the buffered correlations; the next N refill the buffer. |
| ArithEngine.Triples.MulOne | emp-zk/emp-zk-arith/ostriple.h:396-438 | The scalar multiply of either party. |
| ArithEngine.BlockIsMany | emp-zk/emp-zk-arith/ostriple.h:176-209 | Within a buffer, a block at once is the same gates one by one. |
| ArithEngine.SplitCovers | emp-zk/emp-zk-arith/ostriple.h:157-172 | The split over workers visits every index exactly once. |
| ArithEngine.Triples.MulBlock | emp-zk/emp-zk-arith/ostriple.h:176-209 | The block form, in any order of workers, is the scalar form for its gates. |
| ArithEngine.Triples.MulMany | emp-zk/emp-zk-arith/ostriple.h:452-492 | For any n, fill level and worker split, the vectorized call leaves what n scalar calls leave: buffers, counter, outputs, messages, checks, refills. |
| ArithCheck.CheckDifference | emp-zk/emp-zk-arith/ostriple.h:570-613 | For authentic wires and any chi, the verifier's side minus the prover's is Delta^2 * sum chi_i*(a_i*b_i - c_i); the mask cancels. |
| ArithCheck.CheckPasses | emp-zk/emp-zk-arith/ostriple.h:536-565 | An honest proof over right gates is accepted at every chi; with Delta nonzero, over wrong gates only if chi hides the defects. |
| ArithCheck.FewDeltas | emp-zk/emp-zk-arith/ostriple.h:554-565 | If chi does not hide the defects, then for any two numbers sent at most two Delta accept. |
| ArithCheck.WorkerSums | emp-zk/emp-zk-arith/ostriple.h:507-543 | Partial sums over consecutive slices, each with its own coefficients, add up to the fold of the whole buffer. |
| ArithCircuits.GateTied | emp-zk/emp-zk-arith/ostriple.h:396-438 | A multiplication keeps both engines tied and yields an authentic wire of the product. |
| ArithCircuits.ManyTied | emp-zk/emp-zk-arith/ostriple.h:452-492 | So do any number of multiplications, across checks and refills. |
| ArithCircuits.InputTied | emp-zk/emp-zk-arith/ostriple.h:324-368 | An input yields an authentic wire of the prover's value. |
| ArithCircuits.PublicTied | emp-zk/emp-zk-arith/zk_fp_exec_prover.h:92-95 | A public constant is authentic, whatever the fixed public MAC. |
| ArithCircuits.LocalTied | emp-zk/emp-zk-arith/zk_fp_exec_prover.h:53-95 | Addition, subtraction, negation, scaling and constants keep mac = key + val*Delta with val the cleartext. |
| ArithCircuits.GateStepKeeps | emp-zk/emp-zk-arith/zk_fp_exec_prover.h:29-95 | Every gate keeps the two parties in step. |
| ArithCircuits.CircuitHolds | emp-zk/emp-zk-arith/zk_fp_exec_prover.h:29-95 | For every circuit, buffer size and message stream, every wire and every checked gate has mac = key + val*Delta; from a prover that follows the code val is the cleartext and every checked batch is right. |
| ArithCircuits.CircuitPasses | emp-zk/emp-zk-arith/ostriple.h:496-613 | Every check of the run, and the one at teardown, accepts at every chi. |
| ArithBinding.BoundTied | emp-zk/emp-zk-arith/ostriple.h:324-438 | Whatever the prover sends, its messages bind one value per wire and gate, authentic under every key. |
| ArithBinding.FewKeysAccept | emp-zk/emp-zk-arith/ostriple.h:536-565 | For every circuit and every prover: if some check covers a wrong bound gate that chi does not hide, at most two keys accept, whatever is sent for the check. |
| ArithBinding.WrongGateIsCaught | emp-zk/emp-zk-arith/ostriple.h:397-401 | A wrong product anywhere in the circuit is caught: product g is in check g / N, and there, the other coefficients fixed, at all but at most one value of its own at most two keys accept, whatever is sent. |
| ArithBinding.HonestIsAccepted | emp-zk/emp-zk-arith/ostriple.h:536-565 | A prover that follows the code is accepted in every check, under every key and at every chi. |
| ArithLedger.EveryProductRecorded | emp-zk/emp-zk-arith/ostriple.h:397-420 | After every circuit, the batches of all checks and what is buffered for the next are, in order, the circuit's multiplications with the wires they took and produced. |
| ArithLedger.EveryCorrelationOnce | emp-zk/emp-zk-arith/ostriple.h:324-424 | Every correlation drawn has one use: position 0 none, the others each made one input or product, masked one check, or is still buffered; wires are made by the messages, in order. |
| ArithLedger.UsesDiffer | emp-zk/emp-zk-arith/ostriple.h:324-424 | So no two uses share a position of the stream. |
| ArithLedger.ProductInCheck | emp-zk/emp-zk-arith/ostriple.h:397-420 | Multiplication g of the circuit is entry g % N of check g / N, with its wires. |
| ArithPrivacy.OneStreamAtLeast | emp-zk/emp-zk-arith/ostriple.h:324-565 | Whatever messages and second check sums a verifier sees, some choice of the prover's correlations, tagged under its keys, has the code send them, for every circuit and all inputs. |
| ArithPrivacy.OneStreamAtMost | emp-zk/emp-zk-arith/ostriple.h:324-565 | Two choices with the same transcript agree wherever a message or a mask was taken from: the transcript determines them. |
| ArithPrivacy.FirstSumKnown | emp-zk/emp-zk-arith/ostriple.h:536-565 | The first sum of a check is what the verifier computes from its own keys and the second. |
| ArithPrivacy.TranscriptHidesInputs | emp-zk/emp-zk-arith/ostriple.h:324-565 | Perfect zero knowledge over whole runs: what a run sends, gates and checks, a run of the same circuit on other inputs sends too, with correlations that are the same to the verifier. |
| ArithBinding.OpeningBinds | emp-zk/emp-zk-arith/ostriple.h:619-635 | A wire opened to another value than the bound one passes under at most one key. |
| PipeRing.MoveKeeps | emp-zk/emp-zk-arith/correlation_pipe.h:31-60 | Every move of either thread keeps the ring's invariant; an acquisition during a draw never returns -1. |
| PipeRing.PipeSafe | emp-zk/emp-zk-arith/ostriple.h:119-142 | Under every interleaving, down to single correlations, all draws are a prefix of the producer's stream, no slot is filled while it is drained, and the closed-pipe error is out of reach. |
| PipeRing.WaitsExactly | emp-zk/emp-zk-arith/correlation_pipe.h:31-60 | The threads wait no longer than they must: a producer at rest may ask for a round exactly while it is fewer than n rounds ahead or the pipe is closed, a consumer take one exactly if one is published that it has not released. |
| PipeRing.PublishAppends | emp-zk/emp-zk-arith/correlation_pipe.h:36-39 | Publishing appends what the tail slot holds to the queue of rounds waiting to be drawn. |
| PipeRing.ReleaseDrops | emp-zk/emp-zk-arith/correlation_pipe.h:52-55 | Releasing drops the oldest round of the queue. |
| PipeRing.FinishEndsEmptyRing | emp-zk/emp-zk-arith/correlation_pipe.h:45-60 | With the producer not done, the consumer gets -1 exactly from a finished, empty ring; finishing a new ring is an instance. |
| CorrelationPipes.Pipe.AcquireFree | emp-zk/emp-zk-arith/correlation_pipe.h:31-35 | The tail slot, which is free, or -1 after the end. |
| CorrelationPipes.Pipe.AcquireReady | emp-zk/emp-zk-arith/correlation_pipe.h:47-51 | The head slot if one is ready; -1 only after the producer or the pipe is done. |
| CorrelationPipes.Background.ProducerMove | emp-zk/emp-zk-arith/ostriple.h:267-275 | The producer thread's next move, or none while it waits. |
| CorrelationPipes.Background.Draw | emp-zk/emp-zk-arith/ostriple.h:119-142 | Returns the next n correlations of the stream, across slots, with the producer running arbitrarily far between any two copies. |
| PipeParties.EventKeeps | emp-zk/emp-zk-arith/ostriple.h:245-276 | Every event of the two-party system keeps both rings' invariants and the equality of completed rounds, and is progress. |
| PipeParties.NeverStuck | emp-zk/emp-zk-arith/ostriple.h:119-142 | With a waiting party flushed and rounds completed jointly, some event is possible in every reachable state before both programs end, even if producers ask only for rounds that are waited for. |
| PipeParties.EveryRunCompletes | emp-zk/emp-zk-arith/ostriple.h:245-276 | Every run is finite and can only stop with both programs complete; both parties have then drawn equally many correlations, each a prefix of its stream. |
| PipeMessages.NothingArrivesEarly | emp-zk/emp-zk-arith/ostriple.h:119-142 | In every reachable state each party has received at most as many messages as the other flushed, and flushed at most as many as it sent. |
| PipeMessages.MaySpill | emp-zk/emp-zk-arith/ostriple.h:119-142 | In every reachable state in which a party sent more than it flushed, all of it may reach the other without a flush. |
| PipeMessages.FlushedBefore | emp-zk/emp-zk-arith/ostriple.h:119-142 | A consumer that takes a slot had flushed all it sent; so had one that lets go of its slot or closes the pipe, with its program complete. |
| PipeMessages.ReleasedInDraw | emp-zk/emp-zk-arith/ostriple.h:136-140 | In every reachable state a slot copied to its end is released before its draw is over. |
| PipeMessages.NoFlushNoEnd | emp-zk/emp-zk-arith/ostriple.h:124-129 | Without flushes no run completes a program that has a message. |
| PipeMessages.StuckWithoutFlush | emp-zk/emp-zk-arith/ostriple.h:124-129 | And every such run can be extended to one in which nothing but a flush is possible and the program is not complete: it is the flush that avoids the deadlock. |
| PipeTeardown.TeardownExactly | emp-zk/emp-zk-arith/ostriple.h:291-305 | From a state in which both programs are complete, every schedule ends with both producers stopped if and only if no slot is half read and neither ring has room for another round. |
| PipeTeardown.RoomStrands | emp-zk/emp-zk-arith/ostriple.h:267-275 | From every other such state some schedule leaves one producer waiting for a round, the other stopped and both pipes finished. |
| PipeTeardown.SomeRunStrands | emp-zk/emp-zk-arith/ostriple.h:222-305 | For every program, number of slots and round size some run completes both programs and ends like that. |
| PipeTeardown.UnalignedCanStrand | emp-zk/emp-zk-arith/ostriple.h:282-305 | If the program does not draw whole rounds, every state in which it is complete has such a schedule. |

## Left out

- Sockets, message formats, thread pools, abort guards, profiling and debug checks: messages are sequences or joint steps.
- Hash and PRG internals, rejection sampling, commitments and echo checks among verifiers: challenges and masks are arbitrary values, and the verifiers are assumed to have seen the same messages.
- Probability: only the counting bounds behind it are proved; the step from a hash to a random challenge is not.
- Zero knowledge of the permutation test: the code sends the sums of the five-factor batches unmasked and says so in a comment, so nothing is claimed; the two-factor batches are masked as the arithmetic check is.
- VOLE, oblivious transfer and SIMD intrinsics: their outputs satisfy the correlation relation by hypothesis; the high word of a product is computed, not modelled instruction by instruction.
- GF(2^128) is an abstract field of characteristic 2; carry-less multiplication is not modelled.
- Multi-wire compression of long records is linear and is not modelled beyond `PermProof.PackInjective`; the memory theorems take equality of multisets as the verdict of the permutation check.
- The Boolean AND engine, edaBits and the vector wrappers: the first repeats the arithmetic check over another field, the second is statistical, the third only forwards.
- Shared pointers to slots are indices into one list that is never freed; the `hold` list that keeps slots alive has no counterpart.
- Flat coefficient tables are lists of rows; the table from secrets to parties and the inverse key table are not built, since no modelled operation reads them.
- Usage limits that the code leaves to its callers are preconditions: at most T accesses, at most 2^index_sz cells.
- Calls of `error()` are absent results or preconditions; the process exit behind them is not modelled.
- Unbounded run counters (gate, batch and check counts) do not wrap.
- PipeParties.NeverStuck: a party that waits for a message, or has ended its program, is assumed to have flushed, as a draw does explicitly; back-pressure of the sockets is not modelled.
- CorrelationPipes.Background.Draw: the peer is assumed to join every round, so that waiting ends; the two-party system has this as a theorem.
- ArithBinding.OpeningBinds: compares the MACs themselves, where the code compares a digest of all of them at the end.
- PipeParties.EveryRunCompletes: rests on the same flush before a wait.
- ZkRam.PastReadsAreSequential: takes `t_old < clock` as a hypothesis, because shuffle 1 alone does not enforce it.
- PackedAuth.GenSharesAuthentic: for packings of degree k-1; other values are the subject of `PackedExact.GenSharesExactly`.
- PermProof.OpenEqExact: for the MACs the prover holds; arbitrary ones are the subject of `PermBinding.OneDeltaOpens`.
- PermProof.CheckEq: for a prover that follows the code; any other is the subject of `PermSound.FewDeltasPass`.
- PermSound.FewDeltasPass: that chi hides no wrong product is a hypothesis; how rarely it does is `PermBinding.FewSeedsHide` and `PermBinding.OneValueHides`, each for one batch.
- PermSound.FewChallengesCheat: rests on the same hypothesis.
- ProgramChecks.StrategyVerdict: for packed sharings that arrive authentically; any others are the subject of `AnyShares.AcceptedPasses`.
- AnyShares.FalseProgramIsCaught: a wire's value is what its shares add up to; how likely a wrong MAC survives a whole multiplication check is not counted (for an opening it is: `OpenCheck.OneCoefficientOpens`).
- PermProof.PackInjective: that the powers of X below 128 are independent in GF(2^128) is a hypothesis.
