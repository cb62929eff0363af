/** Chains of accepted democracy updates, read against the member tree they start from. */
module DemocracyChain {
  import opened PrimeField
  import opened Stepwise
  import opened PoseidonHash
  import opened Bits
  import opened MerkleTree
  import opened Gadgets
  import opened DemocracyCircuit
  import opened DemocracySoundness
  import opened DemocracyProver

  function NonZero(leaves: seq<int>): nat {
    if leaves == [] then 0 else (if leaves[0] != 0 then 1 else 0) + NonZero(leaves[1..])
  }

  lemma {:induction false} NonZeroUpdate(leaves: seq<int>, pos: nat, value: int)
    requires pos < |leaves|
    ensures NonZero(leaves[pos := value])
         == NonZero(leaves) - (if leaves[pos] != 0 then 1 else 0) + (if value != 0 then 1 else 0)
  {
    if pos > 0 {
      NonZeroUpdate(leaves[1..], pos - 1, value);
      assert leaves[pos := value][1..] == leaves[1..][pos - 1 := value];
    } else {
      assert leaves[pos := value][1..] == leaves[1..];
    }
  }

  // ------------------------------------------------------------------ one update

  function DeltaClash(P: Poseidon, leaves: seq<int>, a: Assignment): HashPair {
    OpeningClash(P, leaves, 0, a.oldLeaf, a.deltaPath, if Position(a) >= 0 then Position(a) else 0)
  }

  function SignerClash(P: Poseidon, leaves: seq<int>, s: Slot): HashPair {
    OpeningClash(P, leaves, 0, P.HashOne(s.sk), s.path, if SlotIndex(s) >= 0 then SlotIndex(s) else 0)
  }

  /** The tree after the update: one leaf replaced. */
  function NextTree(leaves: seq<int>, a: Assignment): seq<int> {
    if 0 <= Position(a) < |leaves| then leaves[Position(a) := a.newLeaf] else leaves
  }

  ghost predicate TreeStep(P: Poseidon, depth: nat, leaves: seq<int>, a: Assignment) {
    0 <= Position(a) < |leaves|
    && leaves[Position(a)] == a.oldLeaf
    && a.rootNew == Root(P, NextTree(leaves, a), depth)
  }

  /** An accepted update over a known tree changes exactly one leaf of that tree, or the
      named pair collides. */
  lemma OneLeafTransition(P: Poseidon, depth: nat, kMax: nat, leaves: seq<int>, a: Assignment)
    requires IsPrime(P.r) && 3 * Pow2(depth) <= P.r
    requires |leaves| == Pow2(depth)
    requires Satisfied(P, depth, kMax, a) && a.rootOld == Root(P, leaves, depth)
    ensures TreeStep(P, depth, leaves, a) || IsCollision(P, DeltaClash(P, leaves, a))
  {
    DemocracySound(P, depth, kMax, a);
    OpeningBinding(P, leaves, a.oldLeaf, a.deltaPath, Position(a), depth);
    if !IsCollision(P, DeltaClash(P, leaves, a)) {
      UpdatedRoot(P, leaves, Position(a), a.newLeaf, depth);
    }
  }

  /** A slot's signer stands at a place of the tree that holds its key's leaf. */
  ghost predicate SignsAtPlace(P: Poseidon, leaves: seq<int>, s: Slot) {
    0 <= SlotIndex(s) < |leaves| && leaves[SlotIndex(s)] == P.HashOne(s.sk)
  }

  /** That leaf is a member's unless the key hashes to zero, the value of an empty place. */
  lemma SignersAreMembers(P: Poseidon, depth: nat, kMax: nat, leaves: seq<int>, a: Assignment, i: nat)
    requires IsPrime(P.r) && 3 * Pow2(depth) <= P.r
    requires |leaves| == Pow2(depth)
    requires Satisfied(P, depth, kMax, a) && a.rootOld == Root(P, leaves, depth)
    requires i < SignerCount(a)
    ensures SignsAtPlace(P, leaves, a.slots[i]) || IsCollision(P, SignerClash(P, leaves, a.slots[i]))
    ensures SignsAtPlace(P, leaves, a.slots[i]) ==>
      (leaves[SlotIndex(a.slots[i])] != 0 <==> P.HashOne(a.slots[i].sk) != 0)
  {
    DemocracySound(P, depth, kMax, a);
    assert SlotSigns(P, depth, a.rootOld, a.slots[i]);
    assert SlotShape(P.r, depth, i, a.slots[i]);
    OpeningBinding(P, leaves, P.HashOne(a.slots[i].sk), a.slots[i].path, SlotIndex(a.slots[i]), depth);
  }

  /** The side conditions on leaves that the circuit does not enforce. */
  predicate LeavesMatchKind(a: Assignment) {
    match KindOf(a)
    case Inserted => a.newLeaf != 0
    case Removed => a.oldLeaf != 0
    case Replaced => (a.oldLeaf == 0) == (a.newLeaf == 0)
  }

  /** The public count keeps counting the members exactly when the leaves match the kind:
      an insert of the zero leaf, or a removal from an empty slot, moves the count alone. */
  lemma CountTracks(P: Poseidon, depth: nat, leaves: seq<int>, a: Assignment)
    requires KindMatches(a) && TreeStep(P, depth, leaves, a)
    requires a.countOld == NonZero(leaves)
    ensures a.countNew == NonZero(NextTree(leaves, a)) <==> LeavesMatchKind(a)
  {
    NonZeroUpdate(leaves, Position(a), a.newLeaf);
  }

  // ---------------------------------------------------------------------- chains

  /** Each update is made on the commitment that the one before produced. */
  ghost predicate Linked(chain: seq<Assignment>) {
    forall i :: 1 <= i < |chain| ==> chain[i - 1].cNew == chain[i].cOld
  }

  ghost predicate AllSatisfied(P: Poseidon, depth: nat, kMax: nat, chain: seq<Assignment>) {
    forall i :: 0 <= i < |chain| ==> Satisfied(P, depth, kMax, chain[i])
  }

  /** Accepted, linked updates, the first one made against a known tree. */
  ghost predicate AcceptedChain(P: Poseidon, depth: nat, kMax: nat, leaves: seq<int>, chain: seq<Assignment>) {
    IsPrime(P.r) && 3 * Pow2(depth) <= P.r && |leaves| == Pow2(depth)
    && AllSatisfied(P, depth, kMax, chain) && Linked(chain)
    && (chain != [] ==> chain[0].rootOld == Root(P, leaves, depth))
  }

  function TreeAfter(leaves: seq<int>, chain: seq<Assignment>, n: nat): (tree: seq<int>)
    requires n <= |chain|
    ensures |tree| == |leaves|
  {
    if n == 0 then leaves else NextTree(TreeAfter(leaves, chain, n - 1), chain[n - 1])
  }

  function LinkClash(P: Poseidon, before: Assignment, after: Assignment): HashPair {
    CommitClash(P, before.rootNew, Add(P.r, before.epochOld, 1), before.saltNew,
                after.rootOld, after.epochOld, after.saltOld)
  }

  /** The first collision that the first `n` updates of a chain expose, if any. */
  function ChainClash(P: Poseidon, leaves: seq<int>, chain: seq<Assignment>, n: nat): HashPair
    requires n <= |chain|
  {
    if n == 0 then HashPair(0, 0, 0, 0)
    else
      var before := ChainClash(P, leaves, chain, n - 1);
      if IsCollision(P, before) then before
      else
        var link := if n == 1 then HashPair(0, 0, 0, 0) else LinkClash(P, chain[n - 2], chain[n - 1]);
        if IsCollision(P, link) then link
        else DeltaClash(P, TreeAfter(leaves, chain, n - 1), chain[n - 1])
  }

  /** Update `i` of a chain, against the tree left by the updates before it. */
  ghost predicate ChainStep(P: Poseidon, depth: nat, leaves: seq<int>, chain: seq<Assignment>, i: nat)
    requires i < |chain|
  {
    var tree := TreeAfter(leaves, chain, i);
    chain[i].rootOld == Root(P, tree, depth)
    && TreeStep(P, depth, tree, chain[i])
    && (i > 0 ==> chain[i].epochOld == Add(P.r, chain[i - 1].epochOld, 1))
  }

  lemma NextChainStep(P: Poseidon, depth: nat, kMax: nat, leaves: seq<int>, chain: seq<Assignment>, i: nat)
    requires AcceptedChain(P, depth, kMax, leaves, chain)
    requires i < |chain|
    requires i > 0 ==> ChainStep(P, depth, leaves, chain, i - 1)
    requires !IsCollision(P, ChainClash(P, leaves, chain, i + 1))
    ensures ChainStep(P, depth, leaves, chain, i)
  {
    var a := chain[i];
    DemocracySound(P, depth, kMax, a);
    if i > 0 {
      var before := chain[i - 1];
      DemocracySound(P, depth, kMax, before);
      assert before.cNew == a.cOld;
      CommitBinding(P, before.rootNew, Add(P.r, before.epochOld, 1), before.saltNew,
                    a.rootOld, a.epochOld, a.saltOld);
    }
    OneLeafTransition(P, depth, kMax, TreeAfter(leaves, chain, i), a);
  }

  ghost function StepHolds(P: Poseidon, depth: nat, leaves: seq<int>, chain: seq<Assignment>): int -> bool {
    i => 0 <= i < |chain| && ChainStep(P, depth, leaves, chain, i)
  }

  ghost function Collided(P: Poseidon, leaves: seq<int>, chain: seq<Assignment>): int -> bool {
    i => 0 <= i <= |chain| && IsCollision(P, ChainClash(P, leaves, chain, i))
  }

  lemma ChainAdvances(P: Poseidon, depth: nat, kMax: nat, leaves: seq<int>, chain: seq<Assignment>, i: int)
    requires AcceptedChain(P, depth, kMax, leaves, chain) && 0 <= i < |chain|
    ensures Advances(StepHolds(P, depth, leaves, chain), Collided(P, leaves, chain), i)
  {
    if (i > 0 ==> ChainStep(P, depth, leaves, chain, i - 1)) && !IsCollision(P, ChainClash(P, leaves, chain, i + 1)) {
      NextChainStep(P, depth, kMax, leaves, chain, i);
    }
  }

  /** Over any chain of accepted, linked updates every update opens the tree the one before
      left, changes one leaf of it and advances the epoch by one, or the named pair of hash
      inputs collides. */
  lemma DemocracyHistory(P: Poseidon, depth: nat, kMax: nat, leaves: seq<int>, chain: seq<Assignment>)
    requires AcceptedChain(P, depth, kMax, leaves, chain)
    ensures (forall i :: 0 <= i < |chain| ==> ChainStep(P, depth, leaves, chain, i))
         || IsCollision(P, ChainClash(P, leaves, chain, |chain|))
  {
    var step, stuck := StepHolds(P, depth, leaves, chain), Collided(P, leaves, chain);
    forall i | 0 <= i < |chain| ensures Advances(step, stuck, i) {
      ChainAdvances(P, depth, kMax, leaves, chain, i);
    }
    StepByStep(step, stuck, |chain|);
    if !stuck(|chain|) {
      forall i | 0 <= i < |chain| ensures ChainStep(P, depth, leaves, chain, i) {
        assert step(i);
      }
    }
  }

  // ------------------------------------------------------------ the member count

  /** The public counts are handed on, and the first one is true of the first tree. */
  ghost predicate CountsLinked(leaves: seq<int>, chain: seq<Assignment>) {
    (chain != [] ==> chain[0].countOld == NonZero(leaves))
    && forall i :: 1 <= i < |chain| ==> chain[i - 1].countNew == chain[i].countOld
  }

  /** Both counts of update `i` are the numbers of members before and after it. */
  ghost predicate CountTrue(leaves: seq<int>, chain: seq<Assignment>, i: nat)
    requires i < |chain|
  {
    chain[i].countOld == NonZero(TreeAfter(leaves, chain, i))
    && chain[i].countNew == NonZero(TreeAfter(leaves, chain, i + 1))
  }

  ghost predicate CountsTrue(leaves: seq<int>, chain: seq<Assignment>, n: nat)
    requires n <= |chain|
  {
    forall i :: 0 <= i < n ==> CountTrue(leaves, chain, i)
  }

  ghost predicate KindsMatch(chain: seq<Assignment>, n: nat)
    requires n <= |chain|
  {
    forall i :: 0 <= i < n ==> LeavesMatchKind(chain[i])
  }

  ghost predicate HistoryHolds(P: Poseidon, depth: nat, leaves: seq<int>, chain: seq<Assignment>) {
    forall i :: 0 <= i < |chain| ==> ChainStep(P, depth, leaves, chain, i)
  }

  lemma CountOfStep(P: Poseidon, depth: nat, kMax: nat, leaves: seq<int>, chain: seq<Assignment>, i: nat)
    requires AcceptedChain(P, depth, kMax, leaves, chain) && i < |chain| && ChainStep(P, depth, leaves, chain, i)
    requires chain[i].countOld == NonZero(TreeAfter(leaves, chain, i))
    ensures CountTrue(leaves, chain, i) <==> LeavesMatchKind(chain[i])
  {
    DemocracySound(P, depth, kMax, chain[i]);
    CountTracks(P, depth, TreeAfter(leaves, chain, i), chain[i]);
  }

  ghost function CountHolds(leaves: seq<int>, chain: seq<Assignment>): int -> bool {
    i => 0 <= i < |chain| && CountTrue(leaves, chain, i)
  }

  ghost function KindHolds(chain: seq<Assignment>): int -> bool {
    i => 0 <= i < |chain| && LeavesMatchKind(chain[i])
  }

  lemma CountAgrees(P: Poseidon, depth: nat, kMax: nat, leaves: seq<int>, chain: seq<Assignment>, i: nat)
    requires AcceptedChain(P, depth, kMax, leaves, chain) && CountsLinked(leaves, chain)
    requires i < |chain| && ChainStep(P, depth, leaves, chain, i)
    ensures AgreesAt(CountHolds(leaves, chain), KindHolds(chain), i)
  {
    if i > 0 ==> CountTrue(leaves, chain, i - 1) {
      CountOfStep(P, depth, kMax, leaves, chain, i);
    }
  }

  lemma CountsAreHolds(leaves: seq<int>, chain: seq<Assignment>, p: int -> bool, q: int -> bool, n: nat)
    requires n <= |chain| && p == CountHolds(leaves, chain) && q == KindHolds(chain)
    ensures CountsTrue(leaves, chain, n) <==> forall i :: 0 <= i < n ==> p(i)
    ensures KindsMatch(chain, n) <==> forall i :: 0 <= i < n ==> q(i)
  {
    forall i | 0 <= i < n ensures p(i) == CountTrue(leaves, chain, i) && q(i) == LeavesMatchKind(chain[i]) {
    }
  }

  /** In a history whose first count is true, the counts of the first `n` updates are the
      numbers of members if and only if the leaves of those updates match their kinds. */
  lemma CountHistory(P: Poseidon, depth: nat, kMax: nat, leaves: seq<int>, chain: seq<Assignment>, n: nat)
    requires AcceptedChain(P, depth, kMax, leaves, chain) && CountsLinked(leaves, chain)
    requires HistoryHolds(P, depth, leaves, chain) && n <= |chain|
    ensures CountsTrue(leaves, chain, n) <==> KindsMatch(chain, n)
  {
    var p, q := CountHolds(leaves, chain), KindHolds(chain);
    forall i | 0 <= i < n ensures AgreesAt(p, q, i) {
      CountAgrees(P, depth, kMax, leaves, chain, i);
    }
    AgreeThroughout(p, q, n);
    CountsAreHolds(leaves, chain, p, q, n);
  }

  // ------------------------------------------------------------- half of the members

  /** At least half of the tree's members sign, each from its own place, which holds the leaf
      of its key. */
  ghost predicate HalfSigns(P: Poseidon, leaves: seq<int>, a: Assignment) {
    var k := SignerCount(a);
    NonZero(leaves) <= 2 * k
    && (forall i :: 0 <= i < k ==> SignsAtPlace(P, leaves, a.slots[i]))
    && (forall i, j :: 0 <= i < j < k ==> SlotIndex(a.slots[i]) < SlotIndex(a.slots[j]))
  }

  ghost predicate SignerCollides(P: Poseidon, leaves: seq<int>, a: Assignment) {
    exists i :: 0 <= i < SignerCount(a) && IsCollision(P, SignerClash(P, leaves, a.slots[i]))
  }

  lemma QuorumSigned(P: Poseidon, depth: nat, kMax: nat, leaves: seq<int>, a: Assignment)
    requires IsPrime(P.r) && 3 * Pow2(depth) <= P.r && |leaves| == Pow2(depth)
    requires Satisfied(P, depth, kMax, a) && a.rootOld == Root(P, leaves, depth) && a.countOld == NonZero(leaves)
    ensures HalfSigns(P, leaves, a) || SignerCollides(P, leaves, a)
  {
    DemocracySound(P, depth, kMax, a);
    if !SignerCollides(P, leaves, a) {
      forall i | 0 <= i < SignerCount(a) ensures SignsAtPlace(P, leaves, a.slots[i]) {
        SignersAreMembers(P, depth, kMax, leaves, a, i);
      }
    }
  }

  /** What the circuit is for.  At every update of a history whose earlier leaves match their
      kinds, at least half of the members of the tree at that moment sign, or a collision is
      named. */
  lemma MajorityHistory(P: Poseidon, depth: nat, kMax: nat, leaves: seq<int>, chain: seq<Assignment>, n: nat)
    requires AcceptedChain(P, depth, kMax, leaves, chain) && CountsLinked(leaves, chain)
    requires n < |chain| && KindsMatch(chain, n)
    ensures HalfSigns(P, TreeAfter(leaves, chain, n), chain[n])
         || SignerCollides(P, TreeAfter(leaves, chain, n), chain[n])
         || IsCollision(P, ChainClash(P, leaves, chain, |chain|))
  {
    DemocracyHistory(P, depth, kMax, leaves, chain);
    if !IsCollision(P, ChainClash(P, leaves, chain, |chain|)) {
      CountHistory(P, depth, kMax, leaves, chain, n);
      assert n > 0 ==> CountTrue(leaves, chain, n - 1);
      assert ChainStep(P, depth, leaves, chain, n);
      QuorumSigned(P, depth, kMax, TreeAfter(leaves, chain, n), chain[n]);
    }
  }

  /** `k` signers at their own places below `cut`, whose keys do not hash to zero, are `k`
      members there. */
  lemma {:induction false} SignersCounted(P: Poseidon, leaves: seq<int>, slots: seq<Slot>, k: nat, cut: nat)
    requires k <= |slots| && cut <= |leaves|
    requires forall i :: 0 <= i < k ==> SignsAtPlace(P, leaves, slots[i]) && P.HashOne(slots[i].sk) != 0
    requires forall i, j :: 0 <= i < j < k ==> SlotIndex(slots[i]) < SlotIndex(slots[j])
    requires k > 0 ==> SlotIndex(slots[k - 1]) < cut
    ensures k <= NonZero(leaves[..cut])
  {
    if k > 0 {
      assert SignsAtPlace(P, leaves, slots[k - 1]);
      var last := SlotIndex(slots[k - 1]);
      SignersCounted(P, leaves, slots, k - 1, last);
      assert leaves[..cut] == leaves[..last] + leaves[last..cut];
      NonZeroConcat(leaves[..last], leaves[last..cut]);
    }
  }

  lemma {:induction false} NonZeroConcat(a: seq<int>, b: seq<int>)
    ensures NonZero(a + b) == NonZero(a) + NonZero(b)
  {
    if a == [] {
      assert a + b == b;
    } else {
      NonZeroConcat(a[1..], b);
      assert (a + b)[1..] == a[1..] + b;
    }
  }

  /** Where no signing key hashes to zero the signers are that many distinct members. */
  lemma SignersAreThatMany(P: Poseidon, leaves: seq<int>, a: Assignment)
    requires HalfSigns(P, leaves, a) && forall i :: 0 <= i < SignerCount(a) ==> P.HashOne(a.slots[i].sk) != 0
    ensures SignerCount(a) <= NonZero(leaves) <= 2 * SignerCount(a)
  {
    var k := SignerCount(a);
    assert k > 0 ==> SignsAtPlace(P, leaves, a.slots[k - 1]);
    SignersCounted(P, leaves, a.slots, k, |leaves|);
    assert leaves[..|leaves|] == leaves;
  }

  /** One key that hashes to zero signs alone, from the empty place 1, for a tree with one
      member; the update puts that member's leaf back. */
  function EmptySigner(P: Poseidon, member: int, sk: int): Inputs {
    var leaves := [member, 0, 0, 0];
    var root := Root(P, leaves, 2);
    Inputs(Commit(P, root, 0, 0), 0, Commit(P, root, Add(P.r, 0, 1), 0), 1, 1,
           [Signer(sk, Path(P, leaves, 1, 2), 1)], root, root, 0, 0,
           Replace(0, Path(P, leaves, 0, 2), member, member))
  }

  /** That update is accepted: nothing in the circuit keeps a key that hashes to zero from
      signing at an empty place. */
  lemma EmptyPlaceSigns(P: Poseidon, kMax: nat, member: int, sk: int)
    requires IsPrime(P.r) && 12 <= P.r && kMax >= 1
    requires InField(P.r, member) && InField(P.r, sk) && P.HashOne(sk) == 0
    ensures var leaves, a := [member, 0, 0, 0], Witness(P, 2, kMax, EmptySigner(P, member, sk));
      Satisfied(P, 2, kMax, a) && a.rootOld == Root(P, leaves, 2)
      && SignerCount(a) == 1 && SlotIndex(a.slots[0]) == 1 && leaves[1] == 0
  {
    var leaves, c := [member, 0, 0, 0], EmptySigner(P, member, sk);
    assert leaves[0 := member] == leaves;
    ReduceId(P.r, 0);
    ReduceId(P.r, 1);
    assert Pow2(2) == 4;
    assert SignerOpens(P, 2, leaves, c.signers[0]);
    DemocracyComplete(P, 2, kMax, leaves, c);
    WitnessCount(P, 2, kMax, c, kMax);
    WitnessIndex(P, 2, leaves, c, 0);
    WitnessSlots(P, 2, kMax, c);
  }

  // ------------------------------------------------------- the count can drift

  function LoneMember(P: Poseidon, sk: int): seq<int> {
    [P.HashOne(sk), 0, 0, 0]
  }

  /** One member of a depth-2 tree signs an insert of the zero leaf at position 1. */
  function EmptyInsert(P: Poseidon, sk: int): Inputs {
    var leaves := LoneMember(P, sk);
    var root := Root(P, leaves, 2);
    Inputs(Commit(P, root, 0, 0), 0, Commit(P, root, Add(P.r, 0, 1), 0), 1, 2,
           [Signer(sk, Path(P, leaves, 0, 2), 0)], root, root, 0, 0,
           Insert(1, Path(P, leaves, 1, 2), 0))
  }

  /** That update is accepted, leaves the tree as it was, and still raises the count. */
  lemma EmptyInsertAccepted(P: Poseidon, kMax: nat, sk: int)
    requires IsPrime(P.r) && 12 <= P.r && kMax >= 1
    requires InField(P.r, sk) && P.HashOne(sk) != 0
    ensures var leaves, a := LoneMember(P, sk), Witness(P, 2, kMax, EmptyInsert(P, sk));
      Satisfied(P, 2, kMax, a)
      && a.rootOld == Root(P, leaves, 2) == a.rootNew
      && a.countOld == NonZero(leaves) == 1 && a.countNew == 2
  {
    var leaves, c := LoneMember(P, sk), EmptyInsert(P, sk);
    assert leaves[1 := 0] == leaves;
    ReduceId(P.r, 0);
    ReduceId(P.r, 1);
    ReduceId(P.r, 2);
    assert Pow2(2) == 4;
    assert SignerOpens(P, 2, leaves, c.signers[0]);
    DemocracyComplete(P, 2, kMax, leaves, c);
    assert leaves[1..] == [0, 0, 0] && [0, 0, 0][1..] == [0, 0] && [0, 0][1..] == [0];
    assert NonZero([0]) == 0 && NonZero([0, 0]) == 0 && NonZero([0, 0, 0]) == 0;
  }
}
