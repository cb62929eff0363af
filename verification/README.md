# Verification of the membership circuits, the ceremony and its services

This project models, in Dafny, the parts of the repository that carry its guarantees, and
proves what they guarantee for all inputs and over all runs:

- the three zero-knowledge circuits (membership, update, democracy) as equations over a prime
  field, with the Merkle tree, the roster and the provers that fill their witnesses;
- the powers-of-tau ceremony, its transcript verifier, the SRS codec and the command-line tool
  that contributes to a state directory and checks a step;
- the ceremony coordinator, as tables changed by requests and a reaper;
- the tag lookup of the push relay and the rate limiter of the relayer.

`dafny verify dfyconfig.toml` checks everything.

## How to read it

Field elements are integers below an arbitrary prime `r`; nothing uses the actual modulus.
Poseidon and SHA-256 are arbitrary functions. No statement assumes that they have no
collisions: where the design relies on binding, the conclusion holds or a named function of
the inputs (`OpeningClash`, `ChainClash`, `CommitClash`, ...) is a colliding pair. A group
element is its exponent and a pairing is a product. A ratio between secrets is a cross-product
`p0·new = p1·old` with nonzero `p0` and `p1`.

A circuit is a predicate on an arbitrary assignment (`Satisfied`), and a method with the
source's loops that enforces it on a constraint system. Soundness lemmas start from any
satisfying assignment; completeness lemmas start from the witness that the constructor places.
Clocks, random draws, published event ids and the order of equal sort keys are inputs or left
open. Integer widths are modelled where they matter: `u64` epochs and 64-bit round numbers wrap,
as in a build without overflow checks, and so does the `u32` request counter.

| file | content |
|---|---|
| `PrimeField`, `Bits`, `Bytes`, `Text`, `Results`, `Stepwise` | arithmetic modulo `r`, bit and byte strings, text files and hexadecimal, results, induction over numbered steps |
| `Poseidon`, `MerkleTree`, `Gadgets` | commitments, the heap-array tree against the recursive tree, circuit gadgets |
| `DemocracyCircuit`, `DemocracySoundness`, `DemocracyProver`, `DemocracyChain` | the democracy circuit, what it forces, when its witness satisfies it, chains of updates |
| `MembershipCircuits`, `Roster`, `Prover`, `WireFormat` | the two smaller circuits, canonical rosters, witness assembly, byte formats |
| `Ceremony`, `SrsCodec`, `Transcript`, `Derivation`, `CeremonyTool` | powers of tau, encoding and hashing, transcripts, when a step is a contribution, state directories |
| `SlotQueue`, `RoundChain`, `ChainIntegrity`, `ChainProgress`, `Coordinator` | the signup table, the rounds table with its blobs, what every reachable chain shows, what can always be done next, the service itself |
| `SqlLike`, `RateLimiter` | tag lookup, request limits |

## What the proofs found

- The count range checks give `count < 2^depth`, while the comment above them speaks of
  `<= 2^depth` (`src/circuit/democracy.rs:287-292`). A tree with all `2^depth` places taken can
  therefore not be named by any update: `CountBelowCapacity`.
- The democracy circuit asks nothing of the new leaf of an insert. `EmptyInsertAccepted` is an
  accepted insert of the zero leaf that raises the public count and leaves the tree alone;
  `CountTracks` and, over whole chains, `CountHistory` give the exact condition under which the
  count stays the number of members. The tree and epoch history does not depend on it:
  `DemocracyHistory`. That each update starts from the count the one before ended with is an
  assumption of `CountHistory` and `MajorityHistory`: the commitments that link a chain do not
  contain the count.
- Empty places hold zero, and no circuit keeps a key that hashes to zero from opening one. Such
  a key passes as a member (`EmptyPlaceAccepted`) and can fill a quorum slot at every empty
  place (`EmptyPlaceSigns`); every other accepted key belongs to a real leaf, up to a collision.
- `prove_update` at the last `u64` epoch produces a witness that only a hash collision could
  satisfy: `ProveUpdateSatisfies`.
- `verify_contribution` is documented to check that the new string was derived from the old
  one. It compares two entries of each series and never the beta series with beta in the second
  group, so it accepts a string that the consistency check rejects (`StepCheckIsLocal`). With the
  consistency check the new string is genuine and in the proof's ratios (`StepAndStringMean`),
  but no check compares lengths: a contribution cut to two entries passes (`CutPasses`), and a
  transcript that ends with it is accepted (`CutTranscriptAccepted`). The exact condition is that
  the lengths are kept as well: then, and only then, the new string is the contribution of a draw
  that the proof belongs to (`StepIsContribution`, entry by entry in `ContributionInRatio`), and
  accepted transcripts of one size are exactly those of honest runs (`OneSizeMeans`,
  `SizedTranscriptIsRun`).
- `verify_consistency` indexes an empty alpha or beta series and `verify_contribution` a short
  old string. `ConsistencyPanics`, `StepPanics` and `TranscriptPanics` say exactly when,
  `ShortStringsPanic` gives inputs. A coordinator never meets such a string: `UploadNeverPanics`.
- `import_srs` ignores bytes after the last point, so a contribution whose file has such bytes
  is committed (`TailAccepted`, `TailStalls`), but the next round asks the blob store for the
  hash of the canonical bytes, which that commit did not store (`CommitServes`). Until somebody
  stores them the tier accepts no further round (`UnservedHeadStalls`); with the head's files
  stored an honest contribution always commits the next one (`HonestUploadCommits`).
- A circuit id that ends in a carriage return is lost when a state directory is rewritten; it
  is the only way in which what `contribute` writes fails `verify-contribution`:
  `ContributedDirChecks`, and `ReturnIsLost` for the input.
- A claim for a tier without rounds answers with an error after the slot has been taken:
  `Coordinator.Claim`.
- The upload handler compares neither the tier nor the circuit id with the path it was called
  on; both are still those of the tier in every round, up to SHA-256: `EveryRoundNames`.
- A sixty-second stretch can hold `2·max - 1` granted requests and no more, as long as no single
  window receives 2^32 requests, after which its counter returns to zero. The condition is exact
  for a window's own bound (`WindowBound`), and for the stretches taken over all limits
  (`SlidingBoundExact`). For one fixed limit above one it is sufficient and not necessary: a
  window of exactly 2^32 requests grants one more than the limit (`WrapWithinBound`).
  `SlidingBoundIsTight` reaches the bound and `CounterWraps` breaks it for every limit.

## Model

| member | source | states |
|---|---|---|
| PoseidonHash.CommitBinding | src/commitment/mod.rs:156-169 | two openings of one commitment agree in root, epoch and salt, or one of two named hash-input pairs collides |
| MerkleTree.PoseidonMerkleTree.BuildFromOrderedLeafHashes | src/merkle/mod.rs:96-127 | for every depth and leaf list the filled array is the recursive zero-padded tree; more leaves than places is the size error |
| MerkleTree.PoseidonMerkleTree.GetRoot | src/merkle/mod.rs:130-132 | cell 1 is the recursive root |
| MerkleTree.RootByHalves | src/merkle/mod.rs:96-127 | the root is the hash of the roots of the left and the right half, in that order, of the leaves filled up with zeros |
| MerkleTree.PoseidonMerkleTree.Prove | src/merkle/mod.rs:140-160 | walking the array gives the recursive path, the index and the stored leaf |
| MerkleTree.PoseidonMerkleTree.Verify | src/merkle/mod.rs:165-188 | accepts exactly when the leaf folds along the path to the root |
| MerkleTree.ProofVerifies | src/merkle/mod.rs:140-188 | the opening produced for any index, empty places included, is accepted |
| MerkleTree.OpeningBinding | src/merkle/mod.rs:165-188 | an accepted opening at an index carries the leaf stored there and the honest path, or a hash collision is named |
| MerkleTree.UpdatedRoot | src/circuit/democracy.rs:485-535 | folding another leaf along the old path gives the root of the tree with that one leaf replaced |
| Gadgets.FoldBitsIsFold | src/circuit/democracy.rs:647-666 | the in-circuit fold with selects is the native fold at the index the bits spell |
| Gadgets.FoldMerklePath | src/circuit/democracy.rs:649-666 | the loop computes that fold |
| Gadgets.BitsToFp | src/circuit/democracy.rs:637-645 | the doubling loop packs the bits to their value modulo r |
| Gadgets.EnforceFitsInBits | src/circuit/democracy.rs:628-634 | the constraints added are a canonical decomposition whose bits from n on are zero |
| Gadgets.FitsMeansBelow | src/circuit/democracy.rs:626-634 | any assignment that passes the range check has a value below 2^n |
| Gadgets.BelowFits | src/circuit/democracy.rs:626-634 | the honest decomposition passes the range check exactly for values below 2^n |
| DemocracyCircuit.GenerateConstraints | src/circuit/democracy.rs:237-619 | running the sections in order leaves the system satisfied exactly when the assignment meets every listed equation |
| DemocracySoundness.AscendsMeans | src/circuit/democracy.rs:376-436 | the gated bit sum forces a strictly larger integer index; no wrap-around hides a descent |
| DemocracySoundness.QuorumMeans | src/circuit/democracy.rs:438-472 | the range check on 2K - m forces m <= 2K over the integers |
| DemocracySoundness.KindMeans | src/circuit/democracy.rs:474-584 | flags, gated leaves and the cubic force one of insert, remove and replace, with the integer count change of that kind |
| DemocracySoundness.DemocracySound | src/circuit/democracy.rs:237-619 | any satisfying assignment: K >= 1 signers in a prefix of the slots, at strictly ascending places below 2^depth, each opening its key's leaf under the old root, a quorum of the old count, one leaf changed, the count changed by kind, both commitments opened, epoch plus one |
| DemocracySoundness.CountBelowCapacity | src/circuit/democracy.rs:287-292 | K is at most 2^depth, less if the old count is zero, and no accepted update names a full tree |
| DemocracyProver.DemocracyComplete | src/circuit/democracy.rs:199-233 | inputs from a real tree satisfy every constraint, padding included, if and only if the seated signers are a strictly ascending quorum, both counts lie below capacity, and an old count of zero does not meet a signer at every place; the new root is that of the leaves with the inserted or replacing leaf, or zero for a removal, at the delta's place |
| DemocracyProver.WitnessDeltaIs | src/circuit/democracy.rs:121-144 | by cases: an insert places zero and its new leaf, a removal its old leaf and zero, a replacement both of its leaves, with the flags of the kind and the bits of the position |
| DemocracyProver.WitnessSlotIs | src/circuit/democracy.rs:303-336 | the slots hold the signers in their order with key, path and place, and zeros after them |
| DemocracyProver.StepBitsValue | src/circuit/democracy.rs:404-430 | for an ascending pair neither the wrapping 64-bit subtraction nor the cut to depth bits loses anything |
| DemocracyChain.OneLeafTransition | src/circuit/democracy.rs:485-535 | over a known tree an accepted update replaces exactly one leaf, whose old value was the one named, or a collision is named |
| DemocracyChain.SignersAreMembers | src/circuit/democracy.rs:337-363 | every counted signer stands at a place of the tree that holds its key's leaf, a nonzero one if and only if its key does not hash to zero, or a collision is named |
| DemocracyChain.CountTracks | src/circuit/democracy.rs:537-584 | the count still counts the nonzero leaves if and only if the leaves are zero and nonzero as the kind says |
| DemocracyChain.DemocracyHistory | src/circuit/democracy.rs:237-619 | over any chain of accepted updates with matching commitments each opens the tree left by the one before, replaces one leaf of it and follows in epoch, or the first collision is named |
| DemocracyChain.CountHistory | src/circuit/democracy.rs:474-584 | in such a history with linked counts and a true first one, the counts of the first n updates are the numbers of members if and only if the leaves of those updates match their kinds |
| DemocracyChain.MajorityHistory | src/circuit/democracy.rs:237-619 | at every update whose predecessors match their kinds at least half of the members of the tree at that moment sign, from distinct places that hold their keys' leaves, or a collision is named |
| DemocracyChain.SignersAreThatMany | src/circuit/democracy.rs:337-472 | where no signing key hashes to zero the K signers are K distinct members |
| DemocracyChain.EmptyPlaceSigns | src/circuit/democracy.rs:337-363 | an accepted update signed only by a key that hashes to zero, from an empty place |
| DemocracyChain.EmptyInsertAccepted | src/circuit/democracy.rs:569-577 | the zero-leaf insert that is accepted and makes the count drift |
| MembershipCircuits.GenerateMembership | src/circuit/mod.rs:124-258 | the constraints are key ownership, the opening, and the commitment |
| MembershipCircuits.GenerateUpdate | src/circuit/update.rs:110-252 | the constraints are the opening under the old root and both commitments, the new one at the old epoch plus one |
| MembershipCircuits.MembershipSound | src/circuit/mod.rs:124-258 | against a roster's own commitment, an accepted assignment has its epoch and salt, and its key's leaf stands in the roster or its key hashes to zero and it opens an empty place, or a collision is named |
| MembershipCircuits.UpdateHistory | src/circuit/update.rs:181-251 | along any chain with matching commitments each epoch is the previous plus one, each old root the previous new root, and each signer opens the tree just installed, or a collision is named |
| MembershipCircuits.SignerOfInstalledTree | src/circuit/update.rs:181-251 | if the installed root is that of a leaf list, the next signer's leaf stands in it, or its key hashes to zero and it opens an empty place, or a collision is named |
| MembershipCircuits.EpochCounts | src/circuit/update.rs:233-251 | the epoch of step i of a history is the first epoch plus i |
| Roster.CanonicalizeMembers | src/merkle/mod.rs:204-220 | the loop over neighbours returns all members in ascending order of their keys, compared byte by byte with a proper prefix first, or the least key that two members share |
| Roster.CanonicalMeans | src/merkle/mod.rs:204-220 | canonicalizing keeps exactly the members, each key below every later one at the first byte where they differ or as its proper prefix, and fails exactly when two members share a key, with the least such key |
| Roster.KeyLeMeans | src/merkle/mod.rs:204-220 | the order of two different keys is that of their first different byte, or of a proper prefix before the longer key |
| Roster.CanonicalIgnoresOrder | src/merkle/mod.rs:204-220 | permuting the input changes nothing, error key included |
| Roster.CanonicalIdempotent | src/merkle/mod.rs:204-220 | a canonical roster is its own canonical form |
| Prover.BuildFromMembers | src/merkle/mod.rs:247-255 | the built tree is that of the canonical roster's leaf hashes; roster and size errors are passed on |
| Prover.LocateProver | src/prover/mod.rs:87-97 | the search loop returns place i if and only if i is the first place with the prover's key and carries its leaf hash, the missing-key error exactly when no place has the key, and the mismatch error exactly when the first one carries another hash |
| Prover.Prove | src/prover/mod.rs:80-115 | the sequence of calls ends in a proof of the roster as given: the root of the canonical leaf hashes, the path and place of the prover's own record, and the commitment to that root at the given epoch and salt, reduced; or in the reason why there is none |
| Prover.ProveUpdate | src/prover/mod.rs:287-333 | the same for an update: an opening of the old roster, the root of the new one, and commitments to both rosters at the old epoch and its u64 successor with their own salts; or the reason why there is none |
| Prover.ProveMeans | src/prover/mod.rs:80-115 | what the result of `prove` is, and for each error what is wrong with the roster: two members with one key, no member with the prover's, another leaf hash, or more members than places |
| Prover.ProveUpdateMeans | src/prover/mod.rs:287-333 | the same of `prove_update`, for either roster |
| Prover.UpdateMeetsProof | src/prover/mod.rs:287-333 | below the last u64 epoch the new commitment of an update is the one that any member of the new roster proves against at the next epoch with the new salt |
| Prover.ProofMeetsUpdate | src/prover/mod.rs:287-333 | the old commitment is the one that any member of the old roster proves against |
| Prover.ProveReaches | src/prover/mod.rs:80-115 | the circuit is reached if and only if keys are distinct, the roster fits and holds the prover with the right leaf hash |
| Prover.ProveUpdateReaches | src/prover/mod.rs:287-333 | the update circuit is reached if and only if both rosters have distinct keys and fit, and the old one holds the prover with the right leaf hash |
| Prover.ProveSatisfies | src/prover/mod.rs:80-115 | whenever it is reached, the witness satisfies every constraint |
| Prover.EmptyPlaceAccepted | src/circuit/mod.rs:124-258 | a key that hashes to zero satisfies the membership circuit at every empty place of a tree |
| Prover.ProveIgnoresOrder | src/prover/mod.rs:80-115 | outcome, root, opening and commitment are unchanged by any permutation of the roster |
| Prover.ProveUpdateSatisfies | src/prover/mod.rs:287-333 | the update witness satisfies the circuit exactly below the last u64 epoch, a named collision apart |
| Prover.ProveUpdateIgnoresOrder | src/prover/mod.rs:287-333 | the same independence of order, for either roster |
| WireFormat.FieldToBytesBe | src/commitment/mod.rs:91-104 | the reversing copy is the 32-byte big-endian form |
| WireFormat.CheckedIsCanonical | src/commitment/mod.rs:117-132 | exactly one 32-byte string per field element is accepted, namely the one whose value is below r |
| WireFormat.Serialize | src/prover/mod.rs:195-208 | the copies into the array produce version, old commitment, epoch, new commitment, each in place |
| WireFormat.Deserialize | src/prover/mod.rs:212-243 | length, version and the canonicality error of either commitment, in the source's order, else the triple |
| WireFormat.WriteThenRead | src/prover/mod.rs:195-260 | reading what was written gives the triple back if and only if the epoch is below 2^64, and always with the epoch modulo 2^64 |
| WireFormat.ReadThenWrite | src/prover/mod.rs:195-260 | every accepted 73-byte string is the encoding of what it decodes to, with a 64-bit epoch |
| WireFormat.SerializedLayout | src/prover/mod.rs:186-208 | byte 0 is 2; bytes 1 to 32, 33 to 40 and 41 to 72 are the old commitment, the epoch modulo 2^64 and the new commitment, most significant byte first |
| WireFormat.DeserializedMeans | src/prover/mod.rs:212-243 | for any bytes: a length other than 73, then a version other than 2, then a commitment whose big-endian value is not below r is the error, and otherwise those values are the result |
| Ceremony.Initialize | src/ceremony/mod.rs:130-168 | the loops produce the series of the draw and its proof |
| Ceremony.InitialIsExact | src/ceremony/mod.rs:130-168 | a nonzero draw gives its exact string, with 2d - 1 powers of tau in the first group and d entries in each other series |
| Ceremony.Contribute | src/ceremony/mod.rs:172-202 | the loops scale entry i by coefficient times tau^i in every series |
| Ceremony.CheckConsistency | src/ceremony/mod.rs:349-420 | the early-return loops give the verdict of the listed equations, a panic on empty alpha or beta series included |
| Ceremony.ConsistencyMeans | src/ceremony/mod.rs:349-420 | accepted if and only if the string is exactly that of its visible nonzero tau, alpha and beta; entry 0 being the generator is derived |
| Ceremony.ConsistentIffSecrets | src/ceremony/mod.rs:349-420 | accepted if and only if some nonzero tau, alpha and beta explain every entry |
| Ceremony.ContributionMultiplies | src/ceremony/mod.rs:172-202 | a contribution takes the string of (tau, alpha, beta) to that of the products with the three factors |
| Ceremony.ContributionsCommute | src/ceremony/mod.rs:785-806 | two contributions give the same string in either order, whatever the string |
| Ceremony.HonestContribution | src/ceremony/mod.rs:172-286 | on a genuine string the step check accepts an honest contribution if and only if no draw is zero and no series has fewer than two entries |
| Ceremony.HonestOnAccepted | src/ceremony/mod.rs:172-286 | the same on any string that a step check lets through, genuine or not |
| Ceremony.HonestInitial | src/ceremony/mod.rs:130-346 | the first check accepts an honest initial string if and only if no draw is zero and the degree is at least two |
| Ceremony.StepMeans | src/ceremony/mod.rs:210-286 | a step is accepted if and only if the lengths suffice, the visible secrets are nonzero and stand in the proof's ratios, and the second entries of the new string fit its first ones |
| Ceremony.StepAndStringMean | src/ceremony/mod.rs:210-420 | the step check and the consistency check together accept exactly the genuine strings in the proof's ratios to the one before |
| Ceremony.InitialMeans | src/ceremony/mod.rs:290-346 | the first check accepts exactly the genuine strings in the proof's ratios to one |
| Ceremony.StepCheckIsLocal | src/ceremony/mod.rs:210-286 | a step that is accepted although the string is inconsistent |
| Ceremony.ConsistencyPanics | src/ceremony/mod.rs:349-363 | the consistency check panics exactly on an empty alpha series, or an empty beta series behind a nonzero alpha, after two sound tau series |
| Ceremony.StepPanics | src/ceremony/mod.rs:210-266 | the step check panics exactly on a short old string behind passing guards, and the first check never |
| Ceremony.ShortStringsPanic | src/ceremony/mod.rs:210-363 | inputs on which the two checks panic |
| Derivation.StepIsContribution | src/ceremony/mod.rs:204-286 | over a genuine old string both checks pass and the lengths are kept if and only if the new string is the contribution of a nonzero draw that the proof belongs to |
| Derivation.ContributionInRatio | src/ceremony/mod.rs:172-202 | being such a contribution is the same as every entry standing in the proof's ratio to the old one, as cross-products |
| Derivation.CutPasses | src/ceremony/mod.rs:204-286 | the honest contribution cut to two entries passes both checks and is no contribution to the longer string |
| Derivation.OneSizeMeans | src/ceremony/mod.rs:678-732 | in an accepted transcript all snapshots have one size if and only if each is its proof's contribution to the one before |
| Derivation.SizedTranscriptIsRun | src/ceremony/mod.rs:608-732 | the accepted transcripts whose snapshots all have the size of a degree are exactly the transcripts of honest runs |
| Derivation.CutTranscriptAccepted | src/ceremony/mod.rs:678-732 | a transcript whose last snapshot is cut to two powers is accepted, whatever the degree |
| Ceremony.Telescope | src/ceremony/mod.rs:709-725 | ratios in cross-product form multiply through over any number of steps |
| SrsCodec.HashSrs | src/ceremony/mod.rs:423-459 | the bytes fed to SHA-256 are exactly the export encoding |
| SrsCodec.ExportSrs | src/ceremony/phase2.rs:47-96 | the appending loops produce the encoding, with its two counts |
| SrsCodec.ImportSrs | src/ceremony/phase2.rs:103-156 | the cursor loops return the decoded string or the first error, with the field and the index |
| SrsCodec.DecodeMeans | src/ceremony/phase2.rs:103-156 | a file imports to a string if and only if it is laid out as that string: four sections, each an eight-byte little-endian count and that many decodable points of 48 or 96 bytes, and a last point; an undecodable point is refused |
| SrsCodec.SectionReads | src/ceremony/phase2.rs:103-150 | a section reads as the elements found there, or fails for a missing count or at the first piece that is missing or does not decode |
| SrsCodec.EncodeLayout | src/ceremony/phase2.rs:47-96 | an export has that layout and nothing after it |
| SrsCodec.PointsAt | src/ceremony/phase2.rs:47-96 | point i of a section is the encoding of entry i, at i times the point length |
| SrsCodec.ImportUndoesExport | src/ceremony/phase2.rs:47-156 | importing an export gives the string back, whatever bytes follow |
| SrsCodec.ImportIgnoresTail | src/ceremony/phase2.rs:103-156 | whatever imports, imports to the same string with any bytes after it |
| SrsCodec.EncodeInjective | src/ceremony/phase2.rs:47-96 | no two strings share an encoding |
| SrsCodec.HashBinding | src/ceremony/mod.rs:423-459 | equal hashes mean equal strings, or the two encodings collide |
| SrsCodec.BlobUnderHash | ceremony-coordinator/src/handlers/upload.rs:93-97 | a blob stored under an SRS hash imports to that SRS, or collides with its encoding |
| Transcript.CheckTranscript | src/ceremony/mod.rs:678-732 | the loops give the verdict: index, hash and consistency of every record, the first proof, every step, the final hash |
| Transcript.TranscriptMeans | src/ceremony/mod.rs:678-732 | a transcript is accepted if and only if every record is numbered, hashed, and a genuine string in its proof's ratios to the one before, and the final hash is the last one |
| Transcript.TranscriptSound | src/ceremony/mod.rs:678-732 | acceptance forces every snapshot to be an exact string, each final secret to be the product of all ratios with a nonzero denominator and the only value that is, and the final SRS to be the last snapshot or a SHA-256 collision |
| Transcript.RatioDetermines | src/ceremony/mod.rs:678-732 | the cross-product form leaves only one value for a final secret |
| Transcript.TranscriptPanics | src/ceremony/mod.rs:678-732 | the transcript check panics exactly at a record whose consistency check does, after accepted ones; its step checks never do |
| Transcript.HonestRunMultiplies | src/ceremony/mod.rs:608-668 | snapshot k of an honest run is the string of the products of the first k+1 draws |
| Transcript.HonestRunVerifies | src/ceremony/mod.rs:608-732 | the transcript of an honest run verifies, for any number of participants |
| Transcript.RunCeremony | src/ceremony/mod.rs:608-668 | with nonzero draws none of the run's assertions trips, the transcript verifies, and the SRS is that of the products |
| Text.ReadersAgree | ceremony-coordinator/src/handlers/upload.rs:285-296 | where the tool's strict reader succeeds, the coordinator's lenient one returns the same map |
| Text.LinesMean | src/bin/ceremony_tool.rs:539-553 | a text falls into lines at each newline, with a carriage return before it dropped; a last line without one is kept whole |
| Text.FileMeans | src/bin/ceremony_tool.rs:539-553 | for both readers: a key has a value if and only if the last line `key=...` that is no comment gives it that value; the strict one reports a line that is neither empty nor a comment and has no equals sign |
| Text.StrictMeans | src/bin/ceremony_tool.rs:539-553 | the reported line is the first such line |
| Text.ParsersMean | src/bin/ceremony_tool.rs:569-573 | the unsigned parser takes an optional plus and digits below 2^64, the signed one also a minus, from -2^63 to 2^63 - 1 |
| Text.DecimalMeans | src/bin/ceremony_tool.rs:144-151 | a number is written without leading zeros and its digits have its value |
| Text.DigitsFront | src/bin/ceremony_tool.rs:569-573 | a front digit is worth itself times ten to the number of digits after it |
| Text.ReadKvFile | src/bin/ceremony_tool.rs:539-553 | the loop returns the map, or the number of the first line without an equals sign |
| Text.WriteKvFile | src/bin/ceremony_tool.rs:528-537 | the pushes render one line per pair |
| Text.WrittenFileReads | src/bin/ceremony_tool.rs:528-553 | reading a written file gives the pairs back, each value less one trailing carriage return |
| Text.HexRoundTrip | src/bin/ceremony_tool.rs:587-627 | decoding an encoding gives the bytes back |
| Text.HexDigitsOf | src/bin/ceremony_tool.rs:587-618 | characters 2i and 2i + 1 of an encoding are the lower-case digits of the high and the low half of byte i |
| Text.HexDecodeMeans | src/bin/ceremony_tool.rs:596-627 | a text decodes to some bytes if and only if it spells their digits, two for each, in either case |
| Text.HexEncodeLoop | src/bin/ceremony_tool.rs:587-594 | the loop pushes the two digits of each byte, high one first |
| Text.HexDecodeLoop | src/bin/ceremony_tool.rs:596-610 | the loop decodes pairs and rejects odd lengths and bad digits |
| CeremonyTool.CheckedStep | src/bin/ceremony_tool.rs:177-232 | the check passes if and only if both directories load and are linked: tier, circuit, next round, both hashes, receipt, proof, participant |
| CeremonyTool.LoadMeans | src/bin/ceremony_tool.rs:335-348 | a directory loads exactly if both text files read, both say version 1, and the SRS imports |
| CeremonyTool.TierMeans | src/bin/ceremony_tool.rs:485-500 | the three tier names, and no other text, are read as tiers |
| CeremonyTool.ProofReads | src/bin/ceremony_tool.rs:419-460 | a receipt gives a proof if and only if its six keys hold, in hexadecimal, the points of tau and beta in the first group and of alpha in the second |
| CeremonyTool.WrittenSays | src/bin/ceremony_tool.rs:350-417 | a written directory loads with every key of both files as the tool sets it, the contribution id `sepceremony1:tier:rN:hash` included, under the hash of the string it holds |
| CeremonyTool.InitMeans | src/bin/ceremony_tool.rs:81-123 | a bad participant or a rejected draw is the error, and otherwise round 0 of the tier is written with degree 2048 or 4096, the circuit id in hexadecimal and no hash before |
| CeremonyTool.ContributeMeans | src/bin/ceremony_tool.rs:125-175 | `contribute` goes through if and only if the participant fits on a line and the directory loads, names a known tier, a round and a circuit, carries its own hash, and the step checks; it writes the next round of that tier and circuit on that hash |
| CeremonyTool.StateMeans | src/bin/ceremony_tool.rs:246-278 | `verify-state` passes if and only if the directory loads and names a round, a tier and a contribution, both files carry its hash, its string is genuine, and round 0 is a first contribution in the receipt's ratios to one |
| CeremonyTool.ContributedDirChecks | src/bin/ceremony_tool.rs:125-232 | what `contribute` writes passes `verify-contribution` if and only if the circuit id does not end in a carriage return |
| CeremonyTool.ReturnIsLost | src/bin/ceremony_tool.rs:125-232 | a written directory whose circuit id ends in two carriage returns loads with one, a contribution to it goes through, and the step does not check |
| CeremonyTool.TailAccepted | src/bin/ceremony_tool.rs:345-348 | the check accepts a state file with any bytes appended wherever it accepts it without |
| CeremonyTool.InitGenuine | src/bin/ceremony_tool.rs:81-123 | `init` succeeds exactly on nonzero draws, and writes the string of its draw |
| CeremonyTool.ContributeGenuine | src/bin/ceremony_tool.rs:125-175 | from a genuine directory `contribute` succeeds exactly on nonzero draws, the step checks, and the result is genuine for the multiplied secrets |
| CeremonyTool.BothChecks | src/bin/ceremony_tool.rs:177-278 | `verify-contribution` and `verify-state` both pass if and only if the directories load and record a step to a genuine string in the receipt's ratios, with linked names and hashes |
| SlotQueue.StepsFollowLifecycle | ceremony-coordinator/src/handlers/slot.rs:65-78 | every step moves a row only along queued, claimed, then committed, expired or withdrawn: a claim or withdrawal by its own participant, a commit in its name and tier, or its tier's reaper; a claim sets the time and the deadline one slot length later, nothing else of a row changes, and a new row carries the signup's key, tier and time |
| SlotQueue.FinalForever | ceremony-coordinator/src/handlers/withdraw.rs:54-73 | over any run committed, expired and withdrawn rows never change again |
| SlotQueue.CommittedExactly | ceremony-coordinator/src/handlers/upload.rs:201-207 | over any run a row is committed if and only if a commit of its tier in its participant's name met it while claimed |
| SlotQueue.InvKept | ceremony-coordinator/src/handlers/slot.rs:36-78 | every step keeps: rows in order of joining, one slot length for all claims, one live claim a tier, first come first served |
| SlotQueue.SlotExclusive | ceremony-coordinator/src/store.rs:124-138 | in every reachable state a tier has at most one claimed row with a deadline ahead, though only the latest claim is looked at |
| SlotQueue.ClaimTakesFirst | ceremony-coordinator/src/handlers/slot.rs:36-78 | when a row is claimed no queued row of its tier joined earlier and no claim of its tier is ahead of its deadline |
| SlotQueue.ClaimsInOrder | ceremony-coordinator/src/handlers/slot.rs:39-78 | over any run the rows of a tier are claimed in order of joining |
| SlotQueue.ReaperExpires | ceremony-coordinator/src/reaper.rs:62-159 | a pass expires every lapsed claim of its tier, and beyond that a row only if it is first in the queue, no claim is ahead of its deadline, and its joining, the latest round, zero and every lapsed deadline each lie more than the idle limit before now; if some row meets this exactly one does expire |
| RoundChain.UploadLinks | ceremony-coordinator/src/handlers/upload.rs:68-141 | an accepted upload was checked against blobs stored under the hashes of the row before, and its row names its own files and SRS |
| RoundChain.RoundIsPositive | ceremony-coordinator/src/handlers/upload.rs:68-90 | the two number parsers agree on an accepted round, whose predecessor is in the table without wrap-around |
| RoundChain.CommitMeans | ceremony-coordinator/src/handlers/upload.rs:46-207 | an accepted upload adds one row, field by field: next number, ids and hash announced in the state file, hashes of the sent files, the receipt's participant, the event ids and the time; and the three blobs; a refused one adds no row |
| RoundChain.UploadAnswers | ceremony-coordinator/src/handlers/upload.rs:46-141 | the answer in the order of the checks: a form that does not read is a bad request, a missing round before it a conflict, missing or unreadable files of that a bad gateway, and then the tool's verdict |
| RoundChain.SeedMeans | ceremony-coordinator/src/seed.rs:31-128 | seeding leaves a tier with rounds alone, fails on a draw with a zero, and otherwise adds round 0, field by field, with its three blobs |
| RoundChain.ChainKept | ceremony-coordinator/src/handlers/upload.rs:143-207 | commits, seeds and foreign uploads keep the chain: contiguous rounds, each row linked to the one before, blobs under their hashes |
| RoundChain.ChainAlways | ceremony-coordinator/src/seed.rs:31-128 | so the chain holds in every reachable state |
| ChainIntegrity.RoundsAreAChain | ceremony-coordinator/src/handlers/upload.rs:68-207 | a tier's rounds are exactly 0 to some head, and each later one is linked to the one before |
| ChainIntegrity.FetchedIsPrev | ceremony-coordinator/src/handlers/upload.rs:92-120 | the SRS and state file a round was checked against are those committed the round before, or the two byte strings collide |
| ChainIntegrity.EveryRoundNames | ceremony-coordinator/src/handlers/upload.rs:68-141 | every round carries its tier's name and circuit id, or a state file collides |
| ChainIntegrity.SeedString | ceremony-coordinator/src/seed.rs:46-128 | round 0 holds the initial string of a nonzero draw |
| ChainIntegrity.HeadSecrets | ceremony-coordinator/src/handlers/upload.rs:68-207 | the head's tau, alpha and beta are those of round 0 multiplied through by all receipt ratios in cross-product form, or a fetched blob collides |
| ChainIntegrity.ConsistentHead | ceremony-coordinator/src/handlers/upload.rs:68-207 | a head string that passes the consistency check is exactly that of the seed's draw multiplied through by all receipt ratios, or a fetched blob collides |
| ChainIntegrity.CommitServes | ceremony-coordinator/src/handlers/upload.rs:143-199 | after a commit the blob that the next round will ask for is stored if and only if the canonical bytes were stored before, are a sent file, or collide with one |
| ChainIntegrity.TailStalls | ceremony-coordinator/src/handlers/upload.rs:116-199 | any upload that would be committed with a canonical state file is committed with bytes after it, and its blob is then missing unless the canonical bytes were stored before, are one of its text files, or collide with a sent file |
| ChainIntegrity.UnservedHeadStalls | ceremony-coordinator/src/handlers/upload.rs:83-199 | in a reachable chain whose head's blob is missing no contribution, whatever it sends, adds a round, and none is accepted for the next number |
| ChainProgress.HonestUploadCommits | ceremony-coordinator/src/handlers/upload.rs:54-207 | from any reachable chain whose head's files are stored an honest contribution with nonzero draws is written, passes every check and commits the next round, or a collision is named |
| ChainProgress.UploadNeverPanics | ceremony-coordinator/src/handlers/upload.rs:109-141 | in a reachable chain no upload makes the tool's check panic, unless a fetched file collides with the committed one |
| ChainProgress.CommittedUsable | ceremony-coordinator/src/handlers/upload.rs:122-141 | every committed string is one that an honest participant can contribute to |
| CoordinatorService.FindHead | ceremony-coordinator/src/store.rs:110-122 | a queued row that no queued row of the tier preceded, if there is one |
| CoordinatorService.FindCurrentClaim | ceremony-coordinator/src/store.rs:124-138 | a claimed row claimed no earlier than any other, if there is one |
| CoordinatorService.FindLatestActive | ceremony-coordinator/src/handlers/withdraw.rs:54-64 | the participant's queued or claimed row that joined last, if there is one |
| CoordinatorService.HeadRound | ceremony-coordinator/src/store.rs:140-151 | the greatest round number of the tier, -1 without any |
| CoordinatorService.LatestRoundAt | ceremony-coordinator/src/reaper.rs:115-123 | the latest commit time of the tier, or zero |
| CoordinatorService.Coordinator.constructor | ceremony-coordinator/src/store.rs:40-71 | empty tables meet both invariants |
| CoordinatorService.Coordinator.SignUp | ceremony-coordinator/src/store.rs:84-92 | appends one queued row with the next id, the caller's key, the tier and the time, or refuses a second one of the same participant and tier in the same second |
| CoordinatorService.Coordinator.TakeSlot | ceremony-coordinator/src/handlers/slot.rs:36-78 | the caller's row, first in the queue, becomes claimed from now until one slot length later, and no claim was ahead of its deadline; or it is refused because the queue is empty, its first row is another's, or a claim is ahead, and nothing changes |
| CoordinatorService.Coordinator.Claim | ceremony-coordinator/src/handlers/slot.rs:36-97 | hands out the head round's row and the next number; the unavailable answer comes exactly when the slot was taken and the tier has no rounds |
| CoordinatorService.Coordinator.Withdraw | ceremony-coordinator/src/handlers/withdraw.rs:46-73 | withdraws the participant's queued or claimed row that joined last; not found exactly when there is none |
| CoordinatorService.Coordinator.RecordUpload | ceremony-coordinator/src/handlers/upload.rs:143-260 | blobs, row, claimed rows and event id in sequence end in the specified tables |
| CoordinatorService.Coordinator.Contribute | ceremony-coordinator/src/handlers/upload.rs:54-282 | an accepted upload adds its row and blobs, and sets exactly the claimed rows of this tier whose key is the receipt's participant to committed, changing no other row; a refused one changes neither table; both invariants are kept |
| CoordinatorService.Coordinator.ExpireStale | ceremony-coordinator/src/reaper.rs:67-98 | the loop expires exactly the lapsed claims and returns the latest of their deadlines |
| CoordinatorService.Coordinator.ReapTier | ceremony-coordinator/src/reaper.rs:62-162 | one pass in the terms of ReaperExpires, with the tier's latest commit time |
| CoordinatorService.Coordinator.SeedTier | ceremony-coordinator/src/seed.rs:31-128 | round 0 once per tier, from a draw; a seeded tier is left alone |
| CoordinatorService.Coordinator.PutBlob | ceremony-coordinator/src/blossom.rs:50-77 | a foreign upload adds a blob under its own hash and keeps the chain |
| SqlLike.Database.GetSubscriptionsForTag | pn-relay/src/db.rs:110-153 | the loop returns the rows the pattern matches, in table order |
| SqlLike.ThreeReplacesEscape | pn-relay/src/db.rs:119-122 | the three replacements in their order escape each special character exactly once |
| SqlLike.TagLookupMeans | pn-relay/src/db.rs:119-131 | for every tag and every text the pattern matches if and only if the text contains, up to ASCII case, the tag without its quotes, in quotes |
| SqlLike.UnderscoresMean | pn-relay/src/db.rs:114-122 | why it escapes: n underscores left as they are match every text of n characters |
| SqlLike.SelectedMeans | pn-relay/src/db.rs:110-153 | the lookup returns each subscription whose filter contains that, as often as the table holds it, and no other |
| RateLimiter.Limiter.Check | relayer/src/validation.rs:122-141 | the address's bucket after the call, other buckets unchanged, and the answer |
| RateLimiter.TouchMeans | relayer/src/validation.rs:122-141 | a call sixty seconds or more after the window began opens a new one, any other counts in it modulo 2^32 |
| RateLimiter.WindowBound | relayer/src/validation.rs:122-141 | over every run at most the limit is granted in a window if and only if it receives fewer than 2^32 calls |
| RateLimiter.SlidingBound | relayer/src/validation.rs:122-141 | over every run with a nondecreasing clock any half-open sixty seconds hold at most 2·max - 1 grants to an address none of whose windows receives 2^32 calls |
| RateLimiter.SlidingBoundExact | relayer/src/validation.rs:122-141 | that bound holds of every limit and every sixty seconds if and only if no window receives 2^32 calls |
| RateLimiter.SlidingBoundIsTight | relayer/src/validation.rs:122-141 | for every limit a run reaches that number |
| RateLimiter.OthersDoNotMatter | relayer/src/validation.rs:122-141 | an address's bucket is the same whether or not others call |
| RateLimiter.CounterWraps | relayer/src/validation.rs:134-139 | for every limit a run that breaks the bound: 2^32 - 1 + max calls in one instant, of which 2·max are granted |
| RateLimiter.WrapWithinBound | relayer/src/validation.rs:134-139 | for a limit above one a window of exactly 2^32 calls stays within the bound of every sixty seconds |

## Left out

- HeadSecrets: speaks of the three secrets that a step check sees; the coordinator never runs the consistency check on an upload, so the other entries of a committed string are known only where somebody runs it, as in ConsistentHead.
- HonestRunVerifies: draws are arbitrary nonzero scalars; no probability is attached to a zero draw.
- Withdraw: the order of rows with equal joining times is left open, as in the queries, so which of two is withdrawn is not fixed.
- Claim: the class method runs a claim as one step; the run relation of the queue is wider and lets signups arrive between the read of the queue and the update, because they do not take the tier's lock.
- Contribute: failures of the database and of the blob store other than a missing blob are not modelled; they leave at most extra blobs, which the upload event covers.
- Groth16 and PLONK proving and verification, key files and the Phase 2 ceremony.
- The curve groups, point compression and subgroup checks: points are exponents, and the encoding is an arbitrary one that decoding undoes.
- The Poseidon permutation, its constants, the SHA-256 function and the circuit id derived from them.
- The order in which public inputs are allocated, and synthesis without a witness.
- Key generation, the SHA-256 commitment, constant-time comparison and salts as byte strings.
- On-chain contracts; a chain of updates is linked only by equal commitments and counts.
- HTTP routing, NIP-98 authentication, multipart parsing, JSON answers, event logs, the status stream and the contents of Nostr events.
- File access, the check for an empty output directory and the printed summaries of the ceremony tool.
- The capacity reserved up front by `import_srs` from an untrusted count.
- Panics of builds with overflow checks: the wrapping arithmetic of release builds is modelled.
- SQLite's limit on pattern length and its treatment of NUL characters in LIKE.
- A mutex around the rate limiter's map: calls are one sequence.
- The reaper's schedule and its order over tiers: a run may reap any tier at any time.
- FFI and JNI layers, the encrypted push payloads and their senders, command-line parsing, scripts.
- HonestUploadCommits: stated for a head below 2^63 - 1, the last number that the coordinator's signed parser reads.
