/** Witness construction of the two Groth16 provers, from a roster to a full assignment. */
module Prover {
  import opened PrimeField
  import opened PoseidonHash
  import opened Bits
  import opened Bytes
  import opened Results
  import opened MerkleTree
  import opened Gadgets
  import opened MembershipCircuits
  import opened Roster

  datatype ProverError = RosterError(error: MerkleError) | KeyNotInRoster | LeafHashMismatch

  datatype ProverInput = ProverInput(members: seq<Member>, secretKey: int, epoch: nat, salt: seq<byte>, depth: nat)

  datatype UpdateInput = UpdateInput(
    membersOld: seq<Member>, membersNew: seq<Member>, secretKey: int,
    epochOld: nat, saltOld: seq<byte>, saltNew: seq<byte>, depth: nat)

  /** Epochs are u64 values. */
  const EPOCHS: nat := 0x1_0000_0000_0000_0000

  function SaltField(r: Modulus, salt: seq<byte>): int {
    Reduce(r, LeToInt(salt))
  }

  function LeafHashes(ms: seq<Member>): (leaves: seq<int>)
    ensures |leaves| == |ms| && forall i :: 0 <= i < |ms| ==> leaves[i] == ms[i].leafHash
  {
    seq(|ms|, i requires 0 <= i < |ms| => ms[i].leafHash)
  }

  function FindKey(ms: seq<Member>, key: Key): (at: Option<nat>)
    ensures at.Some? ==> at.value < |ms| && ms[at.value].publicKey == key
  {
    if ms == [] then None
    else if ms[0].publicKey == key then Some(0)
    else match FindKey(ms[1..], key)
         case None => None
         case Some(i) => Some(i + 1)
  }

  type Canonicalized = Result<seq<Member>, MerkleError>

  /** Roster checks shared by both provers: the ordered roster and the prover's place in it. */
  function Locate(P: Poseidon, publicKeyOf: int -> Key, roster: Canonicalized, sk: int): Result<(seq<Member>, nat), ProverError> {
    match roster
    case Err(e) => Err(RosterError(e))
    case Ok(ordered) =>
      match FindKey(ordered, publicKeyOf(sk))
      case None => Err(KeyNotInRoster)
      case Some(i) => if ordered[i].leafHash != P.HashOne(sk) then Err(LeafHashMismatch) else Ok((ordered, i))
  }

  function OpeningOf(P: Poseidon, sk: int, leaves: seq<int>, index: nat, depth: nat): Opening {
    Opening(sk, Root(P, leaves, depth), Path(P, leaves, index, depth), IntToBits(index, depth))
  }

  /** What `prove` hands to the membership circuit. */
  function MembershipWitness(P: Poseidon, publicKeyOf: int -> Key, input: ProverInput): Result<Membership, ProverError> {
    match Locate(P, publicKeyOf, Canonical(input.members), input.secretKey)
    case Err(e) => Err(e)
    case Ok((ordered, index)) =>
      if |ordered| > Pow2(input.depth) then Err(RosterError(TooManyMembers(|ordered|, Pow2(input.depth))))
      else
        var opening := OpeningOf(P, input.secretKey, LeafHashes(ordered), index, input.depth);
        var epoch, salt := Reduce(P.r, input.epoch), SaltField(P.r, input.salt);
        Ok(Membership(Commit(P, opening.root, epoch, salt), epoch, salt, opening))
  }

  /** The new epoch as a u64: the addition wraps (builds with overflow checks panic instead). */
  function NextEpoch(epoch: nat): nat {
    (epoch + 1) % EPOCHS
  }

  function AssembleUpdate(P: Poseidon, leavesOld: seq<int>, index: nat, leavesNew: seq<int>, sk: int,
                          epoch: nat, saltOld: seq<byte>, saltNew: seq<byte>, depth: nat): Update
  {
    var opening := OpeningOf(P, sk, leavesOld, index, depth);
    var rootNew := Root(P, leavesNew, depth);
    var epochOld := Reduce(P.r, epoch);
    Update(Commit(P, opening.root, epochOld, SaltField(P.r, saltOld)), epochOld,
           Commit(P, rootNew, Reduce(P.r, NextEpoch(epoch)), SaltField(P.r, saltNew)),
           opening, SaltField(P.r, saltOld), rootNew, SaltField(P.r, saltNew))
  }

  function UpdateFrom(P: Poseidon, publicKeyOf: int -> Key, rosterOld: Canonicalized, rosterNew: Canonicalized, sk: int,
                      epoch: nat, saltOld: seq<byte>, saltNew: seq<byte>, depth: nat): Result<Update, ProverError>
  {
    if rosterOld.Err? then Err(RosterError(rosterOld.error))
    else if rosterNew.Err? then Err(RosterError(rosterNew.error))
    else match Locate(P, publicKeyOf, rosterOld, sk)
    case Err(e) => Err(e)
    case Ok((ordered, index)) =>
      if |ordered| > Pow2(depth) then Err(RosterError(TooManyMembers(|ordered|, Pow2(depth))))
      else if |rosterNew.value| > Pow2(depth) then
        Err(RosterError(TooManyMembers(|rosterNew.value|, Pow2(depth))))
      else
        Ok(AssembleUpdate(P, LeafHashes(ordered), index, LeafHashes(rosterNew.value), sk, epoch, saltOld, saltNew, depth))
  }

  /** What `prove_update` hands to the update circuit. */
  function UpdateWitness(P: Poseidon, publicKeyOf: int -> Key, input: UpdateInput): Result<Update, ProverError> {
    UpdateFrom(P, publicKeyOf, Canonical(input.membersOld), Canonical(input.membersNew), input.secretKey,
               input.epochOld, input.saltOld, input.saltNew, input.depth)
  }

  // ------------------------------------------------------ what the two provers promise

  /** A commitment to an ordered roster: the root, u64 epoch and salt bytes, hashed in pairs. */
  ghost predicate CommitsTo(P: Poseidon, c: int, ordered: seq<Member>, depth: nat, epoch: nat, salt: seq<byte>) {
    c == P.HashTwo(P.HashTwo(Root(P, LeafHashes(ordered), depth), epoch % P.r), LeToInt(salt) % P.r)
  }

  ghost predicate IsRootOf(P: Poseidon, root: int, ms: seq<Member>, depth: nat) {
    root == Root(P, LeafHashes(ms), depth)
  }

  /** The opening of a key at its own place in an ordered roster. */
  ghost predicate OpensRoster(P: Poseidon, publicKeyOf: int -> Key, ordered: seq<Member>, sk: int, depth: nat, o: Opening) {
    o.sk == sk && IsRootOf(P, o.root, ordered, depth)
    && exists i: nat | i < |ordered| ::
         ordered[i].publicKey == publicKeyOf(sk) && ordered[i].leafHash == P.HashOne(sk)
         && o.path == Path(P, LeafHashes(ordered), i, depth) && o.idxBits == IntToBits(i, depth)
  }

  /** `prove`: an opening of the canonical roster, and the commitment to its root at the
      input's epoch and salt. */
  ghost predicate ProofMeans(P: Poseidon, publicKeyOf: int -> Key, input: ProverInput, w: Membership) {
    var roster := Canonical(input.members);
    roster.Ok? && OpensRoster(P, publicKeyOf, roster.value, input.secretKey, input.depth, w.opening)
    && w.epoch == input.epoch % P.r && w.salt == LeToInt(input.salt) % P.r
    && CommitsTo(P, w.commitment, roster.value, input.depth, input.epoch, input.salt)
  }

  /** `prove_update`: an opening of the old canonical roster, and commitments to the roots of
      both rosters, the new one at the epoch after the input's as a u64. */
  ghost predicate UpdateMeans(P: Poseidon, publicKeyOf: int -> Key, input: UpdateInput, u: Update) {
    var rosterOld, rosterNew := Canonical(input.membersOld), Canonical(input.membersNew);
    rosterOld.Ok? && rosterNew.Ok?
    && OpensRoster(P, publicKeyOf, rosterOld.value, input.secretKey, input.depth, u.opening)
    && IsRootOf(P, u.rootNew, rosterNew.value, input.depth)
    && u.epochOld == input.epochOld % P.r
    && u.saltOld == LeToInt(input.saltOld) % P.r && u.saltNew == LeToInt(input.saltNew) % P.r
    && CommitsTo(P, u.cOld, rosterOld.value, input.depth, input.epochOld, input.saltOld)
    && CommitsTo(P, u.cNew, rosterNew.value, input.depth, (input.epochOld + 1) % 0x1_0000_0000_0000_0000, input.saltNew)
  }

  /** Why a prover finds no place in a roster. */
  ghost predicate Refuses(P: Poseidon, publicKeyOf: int -> Key, members: seq<Member>, sk: int, depth: nat, e: ProverError) {
    match e
    case KeyNotInRoster => DistinctKeys(members) && forall m :: m in members ==> m.publicKey != publicKeyOf(sk)
    case LeafHashMismatch =>
      DistinctKeys(members) && exists m :: m in members && m.publicKey == publicKeyOf(sk) && m.leafHash != P.HashOne(sk)
    case RosterError(TooManyMembers(found, capacity)) =>
      DistinctKeys(members) && found == |members| > capacity == Pow2(depth) && RecordOf(P, publicKeyOf, sk) in members
    case RosterError(d) => !DistinctKeys(members) && Canonical(members) == Err(d)
  }

  lemma CanonicalHas(members: seq<Member>)
    ensures Canonical(members).Ok? ==>
      DistinctKeys(members) && |Canonical(members).value| == |members|
      && forall m :: m in members <==> m in Canonical(members).value
    ensures Canonical(members).Err? ==> !DistinctKeys(members)
  {
    CanonicalMeans(members);
    SortSize(members);
    forall m ensures m in members <==> m in SortByKey(members) {
      assert m in multiset(members) <==> m in multiset(SortByKey(members));
    }
  }

  /** What `prove` answers: the proof of the roster as given, or the reason why there is none. */
  lemma ProveMeans(P: Poseidon, publicKeyOf: int -> Key, input: ProverInput)
    ensures match MembershipWitness(P, publicKeyOf, input)
            case Ok(w) => ProofMeans(P, publicKeyOf, input, w)
            case Err(e) => Refuses(P, publicKeyOf, input.members, input.secretKey, input.depth, e)
  {
    LocateMeans(P, publicKeyOf, input.members, input.secretKey, input.depth);
  }

  lemma LocateMeans(P: Poseidon, publicKeyOf: int -> Key, members: seq<Member>, sk: int, depth: nat)
    ensures match Locate(P, publicKeyOf, Canonical(members), sk)
            case Err(e) => Refuses(P, publicKeyOf, members, sk, depth, e)
            case Ok((ordered, i)) =>
              Canonical(members) == Ok(ordered) && |ordered| == |members| && DistinctKeys(members)
              && RecordOf(P, publicKeyOf, sk) in members
              && OpensRoster(P, publicKeyOf, ordered, sk, depth, OpeningOf(P, sk, LeafHashes(ordered), i, depth))
  {
    CanonicalHas(members);
    if Canonical(members).Ok? {
      FindKeyFinds(Canonical(members).value, publicKeyOf(sk));
    }
  }

  /** What `prove_update` answers: the update of the rosters as given, or the reason why
      there is none. */
  lemma ProveUpdateMeans(P: Poseidon, publicKeyOf: int -> Key, input: UpdateInput)
    ensures match UpdateWitness(P, publicKeyOf, input)
            case Ok(u) => UpdateMeans(P, publicKeyOf, input, u)
            case Err(e) => RefusesUpdate(P, publicKeyOf, input, e)
  {
    var previous, renewed := Canonical(input.membersOld), Canonical(input.membersNew);
    LocateMeans(P, publicKeyOf, input.membersOld, input.secretKey, input.depth);
    CanonicalHas(input.membersNew);
    if previous.Ok? && renewed.Ok? {
      var found := Locate(P, publicKeyOf, previous, input.secretKey);
      if found.Ok? {
        var (ordered, i) := found.value;
        AssembledMeans(P, publicKeyOf, input, ordered, i, renewed.value);
      }
    }
  }

  ghost predicate RefusesUpdate(P: Poseidon, publicKeyOf: int -> Key, input: UpdateInput, e: ProverError) {
    Refuses(P, publicKeyOf, input.membersOld, input.secretKey, input.depth, e)
    || RefusesNew(input, e)
  }

  ghost predicate RefusesNew(input: UpdateInput, e: ProverError) {
    match e
    case RosterError(TooManyMembers(found, capacity)) =>
      |input.membersOld| <= capacity < found == |input.membersNew| && capacity == Pow2(input.depth)
    case RosterError(d) => !DistinctKeys(input.membersNew) && Canonical(input.membersNew) == Err(d)
    case _ => false
  }

  lemma AssembledMeans(P: Poseidon, publicKeyOf: int -> Key, input: UpdateInput,
                       ordered: seq<Member>, i: nat, renewed: seq<Member>)
    requires Canonical(input.membersOld) == Ok(ordered) && Canonical(input.membersNew) == Ok(renewed)
    requires OpensRoster(P, publicKeyOf, ordered, input.secretKey, input.depth,
                         OpeningOf(P, input.secretKey, LeafHashes(ordered), i, input.depth))
    ensures UpdateMeans(P, publicKeyOf, input,
      AssembleUpdate(P, LeafHashes(ordered), i, LeafHashes(renewed), input.secretKey,
                     input.epochOld, input.saltOld, input.saltNew, input.depth))
  {
  }

  /** The chain of commitments closes: below the last u64 epoch an update ends in the
      commitment that every member of the new roster proves against at the next epoch with
      the new salt. */
  lemma UpdateMeetsProof(P: Poseidon, publicKeyOf: int -> Key, input: UpdateInput, u: Update, after: ProverInput, w: Membership)
    requires UpdateWitness(P, publicKeyOf, input) == Ok(u) && MembershipWitness(P, publicKeyOf, after) == Ok(w)
    requires after.depth == input.depth && multiset(after.members) == multiset(input.membersNew)
    requires after.epoch == input.epochOld + 1 < 0x1_0000_0000_0000_0000 && after.salt == input.saltNew
    ensures w.commitment == u.cNew
  {
    var previous, renewed := Canonical(input.membersOld), Canonical(input.membersNew);
    SmallEpoch(after.epoch);
    UpdateCommits(P, publicKeyOf, input, u, previous, renewed, after.epoch);
    CanonicalIgnoresOrder(after.members, input.membersNew);
    ProofCommits(P, publicKeyOf, after, w, renewed);
  }

  lemma SmallEpoch(epoch: nat)
    requires epoch < 0x1_0000_0000_0000_0000
    ensures epoch % 0x1_0000_0000_0000_0000 == epoch
  {
  }

  /** And it starts from the one that the members of the old roster prove against. */
  lemma ProofMeetsUpdate(P: Poseidon, publicKeyOf: int -> Key, before: ProverInput, w: Membership, input: UpdateInput, u: Update)
    requires MembershipWitness(P, publicKeyOf, before) == Ok(w) && UpdateWitness(P, publicKeyOf, input) == Ok(u)
    requires before.depth == input.depth && multiset(before.members) == multiset(input.membersOld)
    requires before.epoch == input.epochOld && before.salt == input.saltOld
    ensures w.commitment == u.cOld
  {
    var previous, renewed := Canonical(input.membersOld), Canonical(input.membersNew);
    UpdateCommits(P, publicKeyOf, input, u, previous, renewed, NextEpoch(input.epochOld));
    CanonicalIgnoresOrder(before.members, input.membersOld);
    ProofCommits(P, publicKeyOf, before, w, previous);
  }

  lemma ProofCommits(P: Poseidon, publicKeyOf: int -> Key, input: ProverInput, w: Membership, roster: Canonicalized)
    requires MembershipWitness(P, publicKeyOf, input) == Ok(w) && roster == Canonical(input.members)
    ensures roster.Ok? && CommitsTo(P, w.commitment, roster.value, input.depth, input.epoch, input.salt)
  {
    ProveMeans(P, publicKeyOf, input);
  }

  lemma UpdateCommits(P: Poseidon, publicKeyOf: int -> Key, input: UpdateInput, u: Update,
                      previous: Canonicalized, renewed: Canonicalized, next: nat)
    requires UpdateWitness(P, publicKeyOf, input) == Ok(u)
    requires previous == Canonical(input.membersOld) && renewed == Canonical(input.membersNew)
    ensures previous.Ok? && CommitsTo(P, u.cOld, previous.value, input.depth, input.epochOld, input.saltOld)
    requires next == (input.epochOld + 1) % 0x1_0000_0000_0000_0000
    ensures renewed.Ok? && CommitsTo(P, u.cNew, renewed.value, input.depth, next, input.saltNew)
  {
    ProveUpdateMeans(P, publicKeyOf, input);
  }

  // ------------------------------------------------------------------ the methods

  method BuildFromMembers(P: Poseidon, members: seq<Member>, depth: nat)
    returns (built: Result<PoseidonMerkleTree, MerkleError>)
    ensures Canonical(members).Err? ==> built == Err(Canonical(members).error)
    ensures Canonical(members).Ok? && |members| > Pow2(depth) ==> built == Err(TooManyMembers(|members|, Pow2(depth)))
    ensures Canonical(members).Ok? && |members| <= Pow2(depth) ==>
      built.Ok? && built.value.depth == depth
      && built.value.Represents(P, LeafHashes(Canonical(members).value))
  {
    var ordered := CanonicalizeMembers(members);
    if ordered.Err? {
      return Err(ordered.error);
    }
    SortSize(members);
    built := PoseidonMerkleTree.BuildFromOrderedLeafHashes(P, LeafHashes(ordered.value), depth);
  }

  lemma SortSize(members: seq<Member>)
    ensures |SortByKey(members)| == |members|
  {
    assert |multiset(SortByKey(members))| == |multiset(members)|;
  }

  /** The first place of a roster that carries a key. */
  predicate IsFirst(ms: seq<Member>, key: Key, i: nat) {
    i < |ms| && ms[i].publicKey == key && forall j :: 0 <= j < i ==> ms[j].publicKey != key
  }

  lemma {:induction false} FindKeyFinds(ms: seq<Member>, key: Key)
    ensures FindKey(ms, key).None? <==> forall i :: 0 <= i < |ms| ==> ms[i].publicKey != key
    ensures FindKey(ms, key).Some? ==> IsFirst(ms, key, FindKey(ms, key).value)
  {
    if ms != [] {
      FindKeyFinds(ms[1..], key);
      assert forall i :: 0 < i < |ms| ==> ms[i] == ms[1..][i - 1];
      assert forall i :: 0 <= i < |ms[1..]| ==> ms[1..][i] == ms[i + 1];
    }
  }

  /** Finds the prover: the first place with its key, which must carry its leaf hash. */
  method LocateProver(P: Poseidon, publicKeyOf: int -> Key, ordered: seq<Member>, sk: int)
    returns (res: Result<nat, ProverError>)
    ensures forall i: nat :: res == Ok(i) <==>
      IsFirst(ordered, publicKeyOf(sk), i) && ordered[i].leafHash == P.HashOne(sk)
    ensures res == Err(KeyNotInRoster) <==> forall i :: 0 <= i < |ordered| ==> ordered[i].publicKey != publicKeyOf(sk)
    ensures res == Err(LeafHashMismatch) <==>
      exists i: nat :: IsFirst(ordered, publicKeyOf(sk), i) && ordered[i].leafHash != P.HashOne(sk)
  {
    var key := publicKeyOf(sk);
    for i := 0 to |ordered|
      invariant forall j :: 0 <= j < i ==> ordered[j].publicKey != key
    {
      if ordered[i].publicKey == key {
        assert IsFirst(ordered, key, i);
        return if ordered[i].leafHash == P.HashOne(sk) then Ok(i) else Err(LeafHashMismatch);
      }
    }
    res := Err(KeyNotInRoster);
  }

  method Prove(P: Poseidon, publicKeyOf: int -> Key, input: ProverInput)
    returns (res: Result<Membership, ProverError>)
    ensures res == MembershipWitness(P, publicKeyOf, input)
    ensures res.Ok? ==> ProofMeans(P, publicKeyOf, input, res.value)
    ensures res.Err? ==> Refuses(P, publicKeyOf, input.members, input.secretKey, input.depth, res.error)
  {
    ProveMeans(P, publicKeyOf, input);
    var ordered := CanonicalizeMembers(input.members);
    if ordered.Err? {
      return Err(RosterError(ordered.error));
    }
    FindKeyFinds(ordered.value, publicKeyOf(input.secretKey));
    var index := LocateProver(P, publicKeyOf, ordered.value, input.secretKey);
    if index.Err? {
      return Err(index.error);
    }
    CanonicalIdempotent(input.members);
    var tree := BuildFromMembers(P, ordered.value, input.depth);
    if tree.Err? {
      return Err(RosterError(tree.error));
    }
    ghost var leaves := LeafHashes(ordered.value);
    var root := tree.value.GetRoot(P, leaves);
    var proof := tree.value.Prove(index.value, P, leaves);
    var epoch, salt := Reduce(P.r, input.epoch), SaltField(P.r, input.salt);
    res := Ok(Membership(Commit(P, root, epoch, salt), epoch, salt,
                         Opening(input.secretKey, root, proof.path, IntToBits(proof.leafIndex, input.depth))));
  }

  method ProveUpdate(P: Poseidon, publicKeyOf: int -> Key, input: UpdateInput)
    returns (res: Result<Update, ProverError>)
    ensures res == UpdateWitness(P, publicKeyOf, input)
    ensures res.Ok? ==> UpdateMeans(P, publicKeyOf, input, res.value)
    ensures res.Err? ==> RefusesUpdate(P, publicKeyOf, input, res.error)
  {
    ProveUpdateMeans(P, publicKeyOf, input);
    var orderedOld := CanonicalizeMembers(input.membersOld);
    if orderedOld.Err? {
      return Err(RosterError(orderedOld.error));
    }
    var orderedNew := CanonicalizeMembers(input.membersNew);
    if orderedNew.Err? {
      return Err(RosterError(orderedNew.error));
    }
    FindKeyFinds(orderedOld.value, publicKeyOf(input.secretKey));
    var index := LocateProver(P, publicKeyOf, orderedOld.value, input.secretKey);
    if index.Err? {
      return Err(index.error);
    }
    CanonicalIdempotent(input.membersOld);
    CanonicalIdempotent(input.membersNew);
    var treeOld := BuildFromMembers(P, orderedOld.value, input.depth);
    if treeOld.Err? {
      return Err(RosterError(treeOld.error));
    }
    var treeNew := BuildFromMembers(P, orderedNew.value, input.depth);
    if treeNew.Err? {
      return Err(RosterError(treeNew.error));
    }
    ghost var leaves := LeafHashes(orderedOld.value);
    var rootOld := treeOld.value.GetRoot(P, leaves);
    var rootNew := treeNew.value.GetRoot(P, LeafHashes(orderedNew.value));
    var proof := treeOld.value.Prove(index.value, P, leaves);
    var epochOld := Reduce(P.r, input.epochOld);
    var saltOld, saltNew := SaltField(P.r, input.saltOld), SaltField(P.r, input.saltNew);
    res := Ok(Update(Commit(P, rootOld, epochOld, saltOld), epochOld,
                     Commit(P, rootNew, Reduce(P.r, NextEpoch(input.epochOld)), saltNew),
                     Opening(input.secretKey, rootOld, proof.path, IntToBits(proof.leafIndex, input.depth)),
                     saltOld, rootNew, saltNew));
  }

  // ------------------------------------------------------ agreement with the circuits

  ghost predicate HashesInField(r: Modulus, members: seq<Member>) {
    forall m :: m in members ==> InField(r, m.leafHash)
  }

  lemma CanonicalInField(r: Modulus, members: seq<Member>)
    requires HashesInField(r, members)
    ensures AllInField(r, LeafHashes(SortByKey(members)))
  {
    var ordered := SortByKey(members);
    forall i | 0 <= i < |ordered| ensures InField(r, ordered[i].leafHash) {
      assert ordered[i] in multiset(members);
    }
  }

  /** The opening read from the tree satisfies the shared constraints. */
  lemma OpeningSatisfies(P: Poseidon, sk: int, leaves: seq<int>, index: nat, depth: nat)
    requires IsPrime(P.r) && InField(P.r, sk) && AllInField(P.r, leaves)
    requires index < Pow2(depth) && Leaf(leaves, index) == P.HashOne(sk)
    ensures var o := OpeningOf(P, sk, leaves, index, depth); OpeningShape(P.r, depth, o) && OpeningOk(P, o)
  {
    var o := OpeningOf(P, sk, leaves, index, depth);
    NodeInField(P, leaves, depth, 0);
    PathInField(P, leaves, 0, index, depth);
    assert AllInField(P.r, o.idxBits);
    BooleansAreBits(P.r, o.idxBits);
    BitsRoundTrip(index, depth);
    FoldBitsIsFold(P, P.HashOne(sk), o.path, o.idxBits);
    ProofVerifies(P, leaves, index, depth);
  }

  /** A key that hashes to zero is accepted at every empty place: the circuit does not tell
      the padding from a member. */
  lemma EmptyPlaceAccepted(P: Poseidon, sk: int, leaves: seq<int>, index: nat, depth: nat, epoch: int, salt: int)
    requires IsPrime(P.r) && InField(P.r, sk) && AllInField(P.r, leaves) && InField(P.r, epoch) && InField(P.r, salt)
    requires |leaves| <= index < Pow2(depth) && P.HashOne(sk) == 0
    ensures var o := OpeningOf(P, sk, leaves, index, depth);
      MembershipSatisfied(P, depth, Membership(Commit(P, Root(P, leaves, depth), epoch, salt), epoch, salt, o))
  {
    OpeningSatisfies(P, sk, leaves, index, depth);
  }

  /** Whenever `prove` reaches the circuit, its witness satisfies every constraint. */
  lemma ProveSatisfies(P: Poseidon, publicKeyOf: int -> Key, input: ProverInput)
    requires IsPrime(P.r) && InField(P.r, input.secretKey) && HashesInField(P.r, input.members)
    requires MembershipWitness(P, publicKeyOf, input).Ok?
    ensures MembershipSatisfied(P, input.depth, MembershipWitness(P, publicKeyOf, input).value)
  {
    var (ordered, index) := Locate(P, publicKeyOf, Canonical(input.members), input.secretKey).value;
    CanonicalInField(P.r, input.members);
    OpeningSatisfies(P, input.secretKey, LeafHashes(ordered), index, input.depth);
  }

  /** The prover's own record: its public key with the leaf hash of its secret key. */
  function RecordOf(P: Poseidon, publicKeyOf: int -> Key, sk: int): Member {
    Member(publicKeyOf(sk), P.HashOne(sk))
  }

  /** The roster checks pass: no two members share a key and the prover's record is there. */
  lemma LocateReaches(P: Poseidon, publicKeyOf: int -> Key, members: seq<Member>, sk: int)
    ensures Locate(P, publicKeyOf, Canonical(members), sk).Ok? <==>
      DistinctKeys(members) && RecordOf(P, publicKeyOf, sk) in members
    ensures Canonical(members).Ok? ==> |Canonical(members).value| == |members|
  {
    var key, me := publicKeyOf(sk), RecordOf(P, publicKeyOf, sk);
    CanonicalMeans(members);
    SortSize(members);
    if DistinctKeys(members) {
      var ordered := SortByKey(members);
      assert me in members <==> me in multiset(ordered);
      FindKeyFinds(ordered, key);
      if me in ordered {
        var i :| 0 <= i < |ordered| && ordered[i] == me;
        assert FindKey(ordered, key).Some?;
        assert FindKey(ordered, key).value == i;
      }
    }
  }

  /** When `prove` reaches the circuit: no two members share a key, the prover's key is in
      the roster with the right leaf hash, and the roster fits the tree. */
  lemma ProveReaches(P: Poseidon, publicKeyOf: int -> Key, input: ProverInput)
    ensures MembershipWitness(P, publicKeyOf, input).Ok? <==>
      DistinctKeys(input.members) && |input.members| <= Pow2(input.depth)
      && RecordOf(P, publicKeyOf, input.secretKey) in input.members
  {
    LocateReaches(P, publicKeyOf, input.members, input.secretKey);
  }

  /** When `prove_update` does: the same of the old roster, and the new one has distinct keys
      and fits; the prover need not be in it. */
  lemma ProveUpdateReaches(P: Poseidon, publicKeyOf: int -> Key, input: UpdateInput)
    ensures UpdateWitness(P, publicKeyOf, input).Ok? <==>
      DistinctKeys(input.membersOld) && DistinctKeys(input.membersNew)
      && |input.membersOld| <= Pow2(input.depth) && |input.membersNew| <= Pow2(input.depth)
      && RecordOf(P, publicKeyOf, input.secretKey) in input.membersOld
  {
    LocateReaches(P, publicKeyOf, input.membersOld, input.secretKey);
    LocateReaches(P, publicKeyOf, input.membersNew, input.secretKey);
    CanonicalMeans(input.membersOld);
    CanonicalMeans(input.membersNew);
  }

  /** Permuting the roster changes nothing: same outcome, root, opening and commitment. */
  lemma ProveIgnoresOrder(P: Poseidon, publicKeyOf: int -> Key, input: ProverInput, members: seq<Member>)
    requires multiset(members) == multiset(input.members)
    ensures MembershipWitness(P, publicKeyOf, input.(members := members)) == MembershipWitness(P, publicKeyOf, input)
  {
    CanonicalIgnoresOrder(members, input.members);
  }

  /** The same for an update, in either roster. */
  lemma ProveUpdateIgnoresOrder(P: Poseidon, publicKeyOf: int -> Key, input: UpdateInput, previous: seq<Member>, renewed: seq<Member>)
    requires multiset(previous) == multiset(input.membersOld) && multiset(renewed) == multiset(input.membersNew)
    ensures UpdateWitness(P, publicKeyOf, input.(membersOld := previous, membersNew := renewed))
         == UpdateWitness(P, publicKeyOf, input)
  {
    CanonicalIgnoresOrder(previous, input.membersOld);
    CanonicalIgnoresOrder(renewed, input.membersNew);
  }

  /** The inputs whose hashes agree if the last u64 epoch still satisfies the circuit. */
  function EpochClash(P: Poseidon, input: UpdateInput, u: Update): HashPair {
    CommitClash(P, u.rootNew, Reduce(P.r, NextEpoch(input.epochOld)), u.saltNew,
                u.rootNew, Add(P.r, u.epochOld, 1), u.saltNew)
  }

  /** Whenever `prove_update` reaches the circuit its witness satisfies every constraint,
      except at the last u64 epoch, where only a hash collision could satisfy it. */
  lemma ProveUpdateSatisfies(P: Poseidon, publicKeyOf: int -> Key, input: UpdateInput)
    requires IsPrime(P.r) && EPOCHS < P.r && input.epochOld < EPOCHS
    requires InField(P.r, input.secretKey)
    requires HashesInField(P.r, input.membersOld) && HashesInField(P.r, input.membersNew)
    requires UpdateWitness(P, publicKeyOf, input).Ok?
    ensures var u := UpdateWitness(P, publicKeyOf, input).value;
      UpdateSatisfied(P, input.depth, u)
      <==> (input.epochOld < EPOCHS - 1 || IsCollision(P, EpochClash(P, input, u)))
  {
    var roster := Canonical(input.membersOld);
    var (ordered, index) := Locate(P, publicKeyOf, roster, input.secretKey).value;
    CanonicalInField(P.r, input.membersOld);
    CanonicalInField(P.r, input.membersNew);
    AssembledSatisfies(P, LeafHashes(ordered), index, LeafHashes(Canonical(input.membersNew).value), input.secretKey,
                       input.epochOld, input.saltOld, input.saltNew, input.depth);
  }

  lemma AssembledSatisfies(P: Poseidon, leavesOld: seq<int>, index: nat, leavesNew: seq<int>, sk: int,
                           epoch: nat, saltOld: seq<byte>, saltNew: seq<byte>, depth: nat)
    requires IsPrime(P.r) && EPOCHS < P.r && epoch < EPOCHS && InField(P.r, sk)
    requires AllInField(P.r, leavesOld) && AllInField(P.r, leavesNew)
    requires index < |leavesOld| <= Pow2(depth) && leavesOld[index] == P.HashOne(sk)
    ensures var u := AssembleUpdate(P, leavesOld, index, leavesNew, sk, epoch, saltOld, saltNew, depth);
      UpdateSatisfied(P, depth, u)
      <==> (epoch < EPOCHS - 1
            || IsCollision(P, CommitClash(P, u.rootNew, Reduce(P.r, NextEpoch(epoch)), u.saltNew,
                                          u.rootNew, Add(P.r, u.epochOld, 1), u.saltNew)))
  {
    var u := AssembleUpdate(P, leavesOld, index, leavesNew, sk, epoch, saltOld, saltNew, depth);
    OpeningSatisfies(P, sk, leavesOld, index, depth);
    NodeInField(P, leavesNew, depth, 0);
    ReduceId(P.r, epoch);
    ReduceId(P.r, epoch + 1);
    if epoch < EPOCHS - 1 {
      assert NextEpoch(epoch) == epoch + 1;
    } else {
      assert NextEpoch(epoch) == 0;
      ReduceId(P.r, 0);
      CommitDiffers(P, u.rootNew, 0, EPOCHS, u.saltNew);
    }
  }

  /** Different epochs give one commitment only by colliding. */
  lemma CommitDiffers(P: Poseidon, root: int, e: int, e': int, salt: int)
    requires e != e'
    ensures Commit(P, root, e, salt) == Commit(P, root, e', salt)
       <==> IsCollision(P, CommitClash(P, root, e, salt, root, e', salt))
  {
  }
}
