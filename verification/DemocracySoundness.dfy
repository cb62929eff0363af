/** What any satisfying assignment of the democracy circuit says over the integers. */
module DemocracySoundness {
  import opened PrimeField
  import opened PoseidonHash
  import opened Bits
  import opened MerkleTree
  import opened Gadgets
  import opened DemocracyCircuit

  /** Number of active slots among the first `n`. */
  function ActiveCount(slots: seq<Slot>, n: nat): (k: nat)
    requires n <= |slots|
    ensures k <= n
  {
    if n == 0 then 0 else ActiveCount(slots, n - 1) + (if slots[n - 1].active == 1 then 1 else 0)
  }

  function SignerCount(a: Assignment): nat {
    ActiveCount(a.slots, |a.slots|)
  }

  function SlotIndex(s: Slot): int {
    BitsToInt(s.idxBits)
  }

  /** One active slot opens its own key's leaf in the old tree. */
  ghost predicate SlotSigns(P: Poseidon, depth: nat, rootOld: int, s: Slot) {
    0 <= SlotIndex(s) < Pow2(depth)
    && Fold(P, P.HashOne(s.sk), s.path, SlotIndex(s)) == rootOld
  }

  /** A quorum of distinct members: K >= 1 signers filling a prefix of the slots, at
      strictly increasing leaf positions, and at least half of the old count. */
  ghost predicate QuorumOfMembers(P: Poseidon, depth: nat, a: Assignment) {
    var k := SignerCount(a);
    1 <= k
    && (forall i :: 0 <= i < |a.slots| ==> (a.slots[i].active == if i < k then 1 else 0))
    && (forall i :: 0 <= i < k ==> SlotSigns(P, depth, a.rootOld, a.slots[i]))
    && (forall i, j :: 0 <= i < j < k ==> SlotIndex(a.slots[i]) < SlotIndex(a.slots[j]))
    && a.countOld <= 2 * k
  }

  datatype Kind = Inserted | Removed | Replaced

  function KindOf(a: Assignment): Kind {
    if a.isInsert == 1 then Inserted else if a.isRemove == 1 then Removed else Replaced
  }

  function Position(a: Assignment): int {
    BitsToInt(a.posBits)
  }

  /** The leaf and the count change by kind, over the integers. */
  ghost predicate KindMatches(a: Assignment) {
    match KindOf(a)
    case Inserted => a.isRemove == 0 && a.oldLeaf == 0 && a.countNew == a.countOld + 1
    case Removed => a.isInsert == 0 && a.newLeaf == 0 && a.countNew == a.countOld - 1
    case Replaced => a.isInsert == 0 && a.isRemove == 0 && a.countNew == a.countOld
  }

  ghost predicate OneLeafDelta(P: Poseidon, depth: nat, a: Assignment) {
    0 <= Position(a) < Pow2(depth)
    && Fold(P, a.oldLeaf, a.deltaPath, Position(a)) == a.rootOld
    && Fold(P, a.newLeaf, a.deltaPath, Position(a)) == a.rootNew
    && KindMatches(a)
  }

  // ----------------------------------------------------------------- slot order

  lemma {:induction false} PrefixIsCount(slots: seq<Slot>, n: nat)
    requires n <= |slots|
    requires forall i :: 1 <= i < n && slots[i].active == 1 ==> slots[i - 1].active == 1
    ensures forall i :: 0 <= i < n ==> (slots[i].active == 1 <==> i < ActiveCount(slots, n))
  {
    if n > 0 {
      PrefixIsCount(slots, n - 1);
      if slots[n - 1].active == 1 && n >= 2 {
        assert slots[n - 2].active == 1;
      }
    }
  }

  /** A gated equation binds when the gate is one. */
  lemma GateOpen(r: Modulus, x: int, y: int, gate: int)
    requires InField(r, x) && InField(r, y)
    requires gate == 1 && Mul(r, Sub(r, x, y), gate) == 0
    ensures x == y
  {
    MulOne(r, Sub(r, x, y));
    SubZero(r, x, y);
  }

  lemma FollowsMeans(r: Modulus, prev: Slot, cur: Slot)
    requires IsPrime(r)
    requires InField(r, prev.active) && InField(r, cur.active)
    requires SlotFollows(r, prev, cur) && cur.active == 1
    ensures prev.active == 1
  {
    MulOne(r, Sub(r, 1, prev.active));
    SubZero(r, 1, prev.active);
  }

  /** Reduced values that agree and lie within one modulus of each other are equal. */
  lemma CloseReductions(r: Modulus, x: int, y: int)
    requires Reduce(r, x) == Reduce(r, y)
    requires x - y < r && y - x < r
    ensures x == y
  {
    assert x == (x / r) * r + Reduce(r, x);
    assert y == (y / r) * r + Reduce(r, y);
    var d := x / r - y / r;
    assert x - y == d * r;
    if d >= 1 {
      MulMono(1, d, r);
    } else if d <= -1 {
      MulMono(d, -1, r);
    }
  }

  lemma IndexStepIs(r: Modulus, prev: Slot, cur: Slot)
    ensures IndexStep(r, prev, cur) == Reduce(r, SlotIndex(cur) - SlotIndex(prev) - 1)
  {
    ReduceSub(r, SlotIndex(cur), SlotIndex(prev));
    ReduceAddLeft(r, SlotIndex(cur) - SlotIndex(prev), -1);
  }

  /** Packing `depth` bits cannot hide a descending pair of indices. */
  lemma AscendsMeans(r: Modulus, depth: nat, prev: Slot, cur: Slot)
    requires IsPrime(r) && 2 * Pow2(depth) <= r
    requires |prev.idxBits| == depth && AreBits(prev.idxBits)
    requires |cur.idxBits| == depth && AreBits(cur.idxBits)
    requires |cur.diffBits| == depth && AllInField(r, cur.diffBits)
    requires SlotAscends(r, prev, cur) && cur.active == 1
    ensures SlotIndex(prev) < SlotIndex(cur)
  {
    BooleansAreBits(r, cur.diffBits);
    BitsBound(cur.diffBits);
    BitsBound(prev.idxBits);
    BitsBound(cur.idxBits);
    var step := SlotIndex(cur) - SlotIndex(prev) - 1;
    GateOpen(r, BitsValue(r, cur.diffBits), IndexStep(r, prev, cur), cur.active);
    IndexStepIs(r, prev, cur);
    CloseReductions(r, BitsToInt(cur.diffBits), step);
  }

  lemma {:induction false} ChainAscends(slots: seq<Slot>, k: nat, i: nat, j: nat)
    requires i < j < k <= |slots|
    requires forall m :: 1 <= m < k ==> SlotIndex(slots[m - 1]) < SlotIndex(slots[m])
    ensures SlotIndex(slots[i]) < SlotIndex(slots[j])
    decreases j
  {
    if i + 1 < j {
      ChainAscends(slots, k, i, j - 1);
    }
  }

  // --------------------------------------------------------------------- quorum

  lemma {:induction false} SumIsCount(r: Modulus, slots: seq<Slot>, n: nat)
    requires n <= |slots|
    requires forall i :: 0 <= i < n ==> slots[i].active == 0 || slots[i].active == 1
    ensures ActiveSum(r, slots, n) == Reduce(r, ActiveCount(slots, n))
  {
    if n == 0 {
      ReduceId(r, 0);
    } else {
      SumIsCount(r, slots, n - 1);
      ReduceAddLeft(r, ActiveCount(slots, n - 1), slots[n - 1].active);
    }
  }

  /** The reduced 2K - m, whatever the sizes. */
  lemma QuorumDiffIs(r: Modulus, a: Assignment)
    requires forall i :: 0 <= i < |a.slots| ==> a.slots[i].active == 0 || a.slots[i].active == 1
    ensures QuorumDiff(r, a) == Reduce(r, 2 * SignerCount(a) - a.countOld)
  {
    SumIsCount(r, a.slots, |a.slots|);
    ReduceDouble(r, SignerCount(a), a.countOld);
  }

  lemma QuorumMeans(r: Modulus, depth: nat, a: Assignment)
    requires IsPrime(r) && 3 * Pow2(depth) <= r
    requires forall i :: 0 <= i < |a.slots| ==> a.slots[i].active == 0 || a.slots[i].active == 1
    requires 0 <= a.countOld < Pow2(depth)
    requires QuorumDiff(r, a) < Pow2(depth + 1)
    ensures a.countOld <= 2 * SignerCount(a)
  {
    QuorumDiffIs(r, a);
    var x := 2 * SignerCount(a) - a.countOld;
    if x < 0 {
      ReduceUnique(r, x, -1, x + r);
    }
  }

  // ---------------------------------------------------------------------- delta

  lemma KindMeans(r: Modulus, depth: nat, a: Assignment)
    requires IsPrime(r) && 2 * Pow2(depth) <= r
    requires InField(r, a.isInsert) && InField(r, a.isRemove)
    requires InField(r, a.oldLeaf) && InField(r, a.newLeaf)
    requires 0 <= a.countOld < Pow2(depth) && 0 <= a.countNew < Pow2(depth)
    requires DeltaKind(r, a)
    ensures KindMatches(a)
  {
    var d := Sub(r, a.countNew, a.countOld);
    BooleanIsBit(r, a.isInsert);
    BooleanIsBit(r, a.isRemove);
    NoZeroDivisors(r, a.isInsert, a.isRemove);
    NoZeroDivisors(r, a.isInsert, a.oldLeaf);
    NoZeroDivisors(r, a.isRemove, a.newLeaf);
    NoZeroDivisors(r, a.isInsert, Sub(r, d, 1));
    NoZeroDivisors(r, a.isRemove, Add(r, d, 1));
    var gate := Sub(r, Sub(r, 1, a.isInsert), a.isRemove);
    NoZeroDivisors(r, gate, d);
    var c := a.countNew - a.countOld;
    match KindOf(a)
    case Inserted =>
      ReduceAddLeft(r, c, -1);
      CloseReductions(r, c - 1, 0);
    case Removed =>
      ReduceAddLeft(r, c, 1);
      CloseReductions(r, c + 1, 0);
    case Replaced =>
      ReduceId(r, 1);
      assert gate == 1;
      CloseReductions(r, c, 0);
  }

  // -------------------------------------------------------------------- theorem

  lemma ActiveSlotSigns(P: Poseidon, depth: nat, rootOld: int, s: Slot)
    requires IsPrime(P.r) && InField(P.r, rootOld)
    requires |s.path| == depth && AllInField(P.r, s.path)
    requires |s.idxBits| == depth && AllInField(P.r, s.idxBits)
    requires SlotOpens(P, rootOld, s) && s.active == 1
    ensures AreBits(s.idxBits) && SlotSigns(P, depth, rootOld, s)
  {
    BooleansAreBits(P.r, s.idxBits);
    BitsBound(s.idxBits);
    FoldBitsIsFold(P, P.HashOne(s.sk), s.path, s.idxBits);
    FoldInField(P, P.HashOne(s.sk), s.path, SlotIndex(s));
    GateOpen(P.r, FoldBits(P, P.HashOne(s.sk), s.path, s.idxBits), rootOld, s.active);
  }

  lemma ActiveSlotsAscend(P: Poseidon, depth: nat, kMax: nat, a: Assignment, k: nat)
    requires IsPrime(P.r) && 3 * Pow2(depth) <= P.r && Satisfied(P, depth, kMax, a)
    requires k <= |a.slots| && forall i :: 0 <= i < k ==> a.slots[i].active == 1
    ensures forall i :: 0 <= i < k ==> AreBits(a.slots[i].idxBits) && SlotSigns(P, depth, a.rootOld, a.slots[i])
    ensures forall i, j :: 0 <= i < j < k ==> SlotIndex(a.slots[i]) < SlotIndex(a.slots[j])
  {
    var r := P.r;
    assert Shape(r, depth, kMax, a);
    forall i | 0 <= i < k
      ensures AreBits(a.slots[i].idxBits) && SlotSigns(P, depth, a.rootOld, a.slots[i])
    {
      assert SlotShape(r, depth, i, a.slots[i]);
      ActiveSlotSigns(P, depth, a.rootOld, a.slots[i]);
    }
    forall i | 1 <= i < k ensures SlotIndex(a.slots[i - 1]) < SlotIndex(a.slots[i]) {
      assert SlotShape(r, depth, i - 1, a.slots[i - 1]) && SlotShape(r, depth, i, a.slots[i]);
      AscendsMeans(r, depth, a.slots[i - 1], a.slots[i]);
    }
    forall i, j | 0 <= i < j < k ensures SlotIndex(a.slots[i]) < SlotIndex(a.slots[j]) {
      ChainAscends(a.slots, k, i, j);
    }
  }

  lemma SlotsAreSigners(P: Poseidon, depth: nat, kMax: nat, a: Assignment)
    requires IsPrime(P.r) && 3 * Pow2(depth) <= P.r
    requires Satisfied(P, depth, kMax, a)
    requires 0 <= a.countOld < Pow2(depth)
    ensures QuorumOfMembers(P, depth, a)
  {
    var r := P.r;
    assert Shape(r, depth, kMax, a);
    forall i | 0 <= i < |a.slots| ensures a.slots[i].active == 0 || a.slots[i].active == 1 {
      assert SlotShape(r, depth, i, a.slots[i]);
      BooleanIsBit(r, a.slots[i].active);
    }
    forall i | 1 <= i < |a.slots| && a.slots[i].active == 1 ensures a.slots[i - 1].active == 1 {
      FollowsMeans(r, a.slots[i - 1], a.slots[i]);
    }
    PrefixIsCount(a.slots, |a.slots|);
    var k := SignerCount(a);
    ActiveSlotsAscend(P, depth, kMax, a, k);
    FitsMeansBelow(r, QuorumDiff(r, a), a.quorumBits, depth + 1);
    QuorumMeans(r, depth, a);
  }

  /** Soundness: no wrap-around modulo the field order hides a missing quorum, a repeated
      signer, a second changed leaf or a wrong count. */
  lemma DemocracySound(P: Poseidon, depth: nat, kMax: nat, a: Assignment)
    requires IsPrime(P.r) && 3 * Pow2(depth) <= P.r
    requires Satisfied(P, depth, kMax, a)
    ensures 0 <= a.countOld < Pow2(depth) && 0 <= a.countNew < Pow2(depth)
    ensures QuorumOfMembers(P, depth, a)
    ensures OneLeafDelta(P, depth, a)
    ensures a.cOld == P.HashTwo(P.HashTwo(a.rootOld, a.epochOld), a.saltOld)
    ensures a.cNew == P.HashTwo(P.HashTwo(a.rootNew, Add(P.r, a.epochOld, 1)), a.saltNew)
  {
    FitsMeansBelow(P.r, a.countOld, a.countOldBits, depth);
    FitsMeansBelow(P.r, a.countNew, a.countNewBits, depth);
    SlotsAreSigners(P, depth, kMax, a);
    BooleansAreBits(P.r, a.posBits);
    BitsBound(a.posBits);
    FoldBitsIsFold(P, a.oldLeaf, a.deltaPath, a.posBits);
    FoldBitsIsFold(P, a.newLeaf, a.deltaPath, a.posBits);
    KindMeans(P.r, depth, a);
  }

  lemma QuorumDiffFits(P: Poseidon, depth: nat, kMax: nat, a: Assignment)
    requires IsPrime(P.r) && Satisfied(P, depth, kMax, a)
    ensures QuorumDiff(P.r, a) < Pow2(depth + 1)
  {
    FitsMeansBelow(P.r, QuorumDiff(P.r, a), a.quorumBits, depth + 1);
  }

  lemma SignersFit(P: Poseidon, depth: nat, a: Assignment)
    requires QuorumOfMembers(P, depth, a)
    ensures SignerCount(a) <= Pow2(depth)
  {
    var k := SignerCount(a);
    assert SlotSigns(P, depth, a.rootOld, a.slots[0]);
    IndexAtLeast(a.slots, k, k - 1);
    assert SlotSigns(P, depth, a.rootOld, a.slots[k - 1]);
  }

  /** A distinct place signs for each of the K slots; so K is at most 2^depth, less if the old
      count is zero, and a tree holding 2^depth members can never be named by an accepted
      update. */
  lemma CountBelowCapacity(P: Poseidon, depth: nat, kMax: nat, a: Assignment)
    requires IsPrime(P.r) && 3 * Pow2(depth) <= P.r
    requires Satisfied(P, depth, kMax, a)
    ensures SignerCount(a) <= Pow2(depth)
    ensures a.countOld == 0 ==> SignerCount(a) < Pow2(depth)
    ensures a.countOld != Pow2(depth) && a.countNew != Pow2(depth)
  {
    DemocracySound(P, depth, kMax, a);
    SignersFit(P, depth, a);
    QuorumDiffFits(P, depth, kMax, a);
    QuorumDiffIs(P.r, a);
    ReduceId(P.r, 2 * SignerCount(a) - a.countOld);
  }

  lemma {:induction false} IndexAtLeast(slots: seq<Slot>, k: nat, i: nat)
    requires i < k <= |slots|
    requires 0 <= SlotIndex(slots[0])
    requires forall m, n :: 0 <= m < n < k ==> SlotIndex(slots[m]) < SlotIndex(slots[n])
    ensures i <= SlotIndex(slots[i])
  {
    if i > 0 {
      IndexAtLeast(slots, k, i - 1);
    }
  }
}
