/** The membership circuit and the update circuit that extends it. */
module MembershipCircuits {
  import opened PrimeField
  import opened PoseidonHash
  import opened Bits
  import opened MerkleTree
  import opened Gadgets

  /** Key ownership and membership, the part both circuits share. */
  datatype Opening = Opening(sk: int, root: int, path: seq<int>, idxBits: seq<int>)

  datatype Membership = Membership(commitment: int, epoch: int, salt: int, opening: Opening)

  datatype Update = Update(
    cOld: int, epochOld: int, cNew: int, opening: Opening, saltOld: int, rootNew: int, saltNew: int)

  ghost predicate OpeningShape(r: Modulus, depth: nat, o: Opening) {
    InField(r, o.sk) && InField(r, o.root)
    && |o.path| == depth && AllInField(r, o.path)
    && |o.idxBits| == depth && AllInField(r, o.idxBits)
  }

  ghost predicate MembershipShape(r: Modulus, depth: nat, a: Membership) {
    InField(r, a.commitment) && InField(r, a.epoch) && InField(r, a.salt) && OpeningShape(r, depth, a.opening)
  }

  ghost predicate UpdateShape(r: Modulus, depth: nat, a: Update) {
    InField(r, a.cOld) && InField(r, a.epochOld) && InField(r, a.cNew)
    && InField(r, a.saltOld) && InField(r, a.rootNew) && InField(r, a.saltNew)
    && OpeningShape(r, depth, a.opening)
  }

  predicate OpeningOk(P: Poseidon, o: Opening)
    requires |o.path| == |o.idxBits|
  {
    AllBoolean(P.r, o.idxBits) && FoldBits(P, P.HashOne(o.sk), o.path, o.idxBits) == o.root
  }

  ghost predicate MembershipSatisfied(P: Poseidon, depth: nat, a: Membership) {
    MembershipShape(P.r, depth, a) && OpeningOk(P, a.opening)
    && Commit(P, a.opening.root, a.epoch, a.salt) == a.commitment
  }

  ghost predicate UpdateSatisfied(P: Poseidon, depth: nat, a: Update) {
    UpdateShape(P.r, depth, a) && OpeningOk(P, a.opening)
    && Commit(P, a.opening.root, a.epochOld, a.saltOld) == a.cOld
    && Commit(P, a.rootNew, Add(P.r, a.epochOld, 1), a.saltNew) == a.cNew
  }

  // ------------------------------------------------------------ the synthesizers

  method EnforceOpening(cs: ConstraintSystem, P: Poseidon, o: Opening)
    requires |o.path| == |o.idxBits|
    modifies cs
    ensures cs.satisfied == (old(cs.satisfied) && OpeningOk(P, o))
  {
    AllocateBooleans(cs, P.r, o.idxBits);
    var current := P.HashOne(o.sk);
    for i := 0 to |o.path|
      invariant FoldBits(P, current, o.path[i..], o.idxBits[i..])
             == FoldBits(P, P.HashOne(o.sk), o.path, o.idxBits)
    {
      var left := Select(P.r, o.idxBits[i], o.path[i], current);
      var right := Select(P.r, o.idxBits[i], current, o.path[i]);
      assert o.path[i..][1..] == o.path[i + 1..];
      assert o.idxBits[i..][1..] == o.idxBits[i + 1..];
      current := P.HashTwo(left, right);
    }
    cs.EnforceEqual(current, o.root);
  }

  method GenerateMembership(cs: ConstraintSystem, P: Poseidon, depth: nat, a: Membership)
    requires MembershipShape(P.r, depth, a)
    modifies cs
    ensures cs.satisfied == (old(cs.satisfied) && MembershipSatisfied(P, depth, a))
  {
    EnforceOpening(cs, P, a.opening);
    var rootAndEpoch := P.HashTwo(a.opening.root, a.epoch);
    cs.EnforceEqual(P.HashTwo(rootAndEpoch, a.salt), a.commitment);
  }

  method GenerateUpdate(cs: ConstraintSystem, P: Poseidon, depth: nat, a: Update)
    requires UpdateShape(P.r, depth, a)
    modifies cs
    ensures cs.satisfied == (old(cs.satisfied) && UpdateSatisfied(P, depth, a))
  {
    EnforceOpening(cs, P, a.opening);
    var oldRootEpoch := P.HashTwo(a.opening.root, a.epochOld);
    cs.EnforceEqual(P.HashTwo(oldRootEpoch, a.saltOld), a.cOld);
    var epochNew := Add(P.r, a.epochOld, 1);
    var newRootEpoch := P.HashTwo(a.rootNew, epochNew);
    cs.EnforceEqual(P.HashTwo(newRootEpoch, a.saltNew), a.cNew);
  }

  // ------------------------------------------------------------------- soundness

  function LeafIndex(o: Opening): int {
    BitsToInt(o.idxBits)
  }

  ghost predicate HoldsKey(P: Poseidon, depth: nat, o: Opening, root: int) {
    0 <= LeafIndex(o) < Pow2(depth) && Fold(P, P.HashOne(o.sk), o.path, LeafIndex(o)) == root
  }

  lemma OpeningSound(P: Poseidon, depth: nat, o: Opening)
    requires IsPrime(P.r) && OpeningShape(P.r, depth, o) && OpeningOk(P, o)
    ensures HoldsKey(P, depth, o, o.root)
  {
    BooleansAreBits(P.r, o.idxBits);
    BitsBound(o.idxBits);
    FoldBitsIsFold(P, P.HashOne(o.sk), o.path, o.idxBits);
  }

  function KeyClash(P: Poseidon, leaves: seq<int>, o: Opening): HashPair {
    OpeningClash(P, leaves, 0, P.HashOne(o.sk), o.path, if LeafIndex(o) >= 0 then LeafIndex(o) else 0)
  }

  /** The key's leaf stands in the list; or the key hashes to zero, which is what the places
      beyond the list hold. */
  ghost predicate KeyOfList(P: Poseidon, leaves: seq<int>, o: Opening) {
    0 <= LeafIndex(o)
    && (if LeafIndex(o) < |leaves| then leaves[LeafIndex(o)] == P.HashOne(o.sk) else P.HashOne(o.sk) == 0)
  }

  /** Read against a known roster: an accepted membership assignment for the roster's own
      commitment holds the key of one of its leaves, or one that hashes to zero, at the
      roster's epoch and salt. */
  lemma MembershipSound(P: Poseidon, depth: nat, a: Membership, leaves: seq<int>, epoch: int, salt: int)
    requires IsPrime(P.r) && MembershipSatisfied(P, depth, a)
    requires a.commitment == P.HashTwo(P.HashTwo(Root(P, leaves, depth), epoch), salt)
    ensures (a.epoch == epoch && a.salt == salt
             && LeafIndex(a.opening) < Pow2(depth) && KeyOfList(P, leaves, a.opening))
         || IsCollision(P, CommitClash(P, a.opening.root, a.epoch, a.salt, Root(P, leaves, depth), epoch, salt))
         || IsCollision(P, KeyClash(P, leaves, a.opening))
  {
    OpeningSound(P, depth, a.opening);
    CommitBinding(P, a.opening.root, a.epoch, a.salt, Root(P, leaves, depth), epoch, salt);
    if a.opening.root == Root(P, leaves, depth) {
      OpeningBinding(P, leaves, P.HashOne(a.opening.sk), a.opening.path, LeafIndex(a.opening), depth);
    }
  }

  // --------------------------------------------------------------------- history

  ghost predicate UpdateChain(P: Poseidon, depth: nat, chain: seq<Update>) {
    (forall i :: 0 <= i < |chain| ==> UpdateSatisfied(P, depth, chain[i]))
    && (forall i :: 1 <= i < |chain| ==> chain[i - 1].cNew == chain[i].cOld)
  }

  function UpdateLink(P: Poseidon, before: Update, after: Update): HashPair {
    CommitClash(P, before.rootNew, Add(P.r, before.epochOld, 1), before.saltNew,
                after.opening.root, after.epochOld, after.saltOld)
  }

  /** The first link of the chain whose commitment has two openings, if any. */
  function UpdateClash(P: Poseidon, chain: seq<Update>): HashPair {
    if |chain| < 2 then HashPair(0, 0, 0, 0)
    else if IsCollision(P, UpdateLink(P, chain[0], chain[1])) then UpdateLink(P, chain[0], chain[1])
    else UpdateClash(P, chain[1..])
  }

  /** Epoch plus one, same tree, and the new signer opens the tree just installed. */
  ghost predicate Continues(P: Poseidon, depth: nat, before: Update, after: Update) {
    after.epochOld == Add(P.r, before.epochOld, 1)
    && after.opening.root == before.rootNew
    && after.saltOld == before.saltNew
    && HoldsKey(P, depth, after.opening, before.rootNew)
  }

  /** A chain of accepted updates, each made on the commitment the last one produced, is
      one history of trees, or the named pair collides. */
  lemma {:induction false} UpdateHistory(P: Poseidon, depth: nat, chain: seq<Update>)
    requires IsPrime(P.r) && UpdateChain(P, depth, chain)
    ensures (forall i :: 1 <= i < |chain| ==> Continues(P, depth, chain[i - 1], chain[i]))
         || IsCollision(P, UpdateClash(P, chain))
  {
    if |chain| >= 2 {
      var before, after, rest := chain[0], chain[1], chain[1..];
      CommitBinding(P, before.rootNew, Add(P.r, before.epochOld, 1), before.saltNew,
                    after.opening.root, after.epochOld, after.saltOld);
      OpeningSound(P, depth, after.opening);
      assert forall i :: 1 <= i < |rest| ==> rest[i - 1] == chain[i] && rest[i] == chain[i + 1];
      UpdateHistory(P, depth, rest);
      if !IsCollision(P, UpdateClash(P, chain)) {
        forall i | 1 <= i < |chain| ensures Continues(P, depth, chain[i - 1], chain[i]) {
          if i > 1 {
            assert Continues(P, depth, rest[i - 2], rest[i - 1]);
          }
        }
      }
    }
  }

  /** If the installed root is that of a known tree, the next signer holds the key of one of
      its leaves, or one that hashes to zero, or the named pair collides. */
  lemma SignerOfInstalledTree(P: Poseidon, depth: nat, before: Update, after: Update, leaves: seq<int>)
    requires UpdateSatisfied(P, depth, after) && Continues(P, depth, before, after)
    requires before.rootNew == Root(P, leaves, depth)
    ensures KeyOfList(P, leaves, after.opening)
         || IsCollision(P, KeyClash(P, leaves, after.opening))
  {
    OpeningBinding(P, leaves, P.HashOne(after.opening.sk), after.opening.path, LeafIndex(after.opening), depth);
  }

  /** The epoch of step `i` is the first epoch plus `i`. */
  lemma {:induction false} EpochCounts(P: Poseidon, depth: nat, chain: seq<Update>, i: nat)
    requires i < |chain| && InField(P.r, chain[0].epochOld)
    requires forall k :: 1 <= k < |chain| ==> Continues(P, depth, chain[k - 1], chain[k])
    ensures chain[i].epochOld == Reduce(P.r, chain[0].epochOld + i)
  {
    if i == 0 {
      ReduceId(P.r, chain[0].epochOld);
    } else {
      EpochCounts(P, depth, chain, i - 1);
      ReduceAddLeft(P.r, chain[0].epochOld + i - 1, 1);
    }
  }
}
