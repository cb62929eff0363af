/** The assignment that the democracy circuit's constructor places, and exactly when it
    satisfies the constraints. */
module DemocracyProver {
  import opened PrimeField
  import opened PoseidonHash
  import opened Bits
  import opened MerkleTree
  import opened Gadgets
  import opened DemocracyCircuit
  import opened DemocracySoundness

  datatype Signer = Signer(secretKey: int, merklePath: seq<int>, leafIndex: nat)

  datatype Delta =
    | Insert(position: nat, path: seq<int>, newLeaf: int)
    | Remove(position: nat, path: seq<int>, oldLeaf: int)
    | Replace(position: nat, path: seq<int>, oldLeaf: int, newLeaf: int)
  {
    function OldLeaf(): int {
      if Insert? then 0 else oldLeaf
    }

    function NewLeaf(): int {
      if Remove? then 0 else newLeaf
    }
  }

  /** The circuit struct with every option set.  Salts are already field elements. */
  datatype Inputs = Inputs(
    cOld: int, epochOld: nat, cNew: int, countOld: nat, countNew: nat,
    signers: seq<Signer>, rootOld: int, rootNew: int, saltOld: int, saltNew: int, delta: Delta)

  function PadPath(path: seq<int>, depth: nat): (padded: seq<int>)
    ensures |padded| == depth
    ensures |path| == depth ==> padded == path
  {
    seq(depth, level requires 0 <= level => if level < |path| then path[level] else 0)
  }

  const U64: int := 0x1_0000_0000_0000_0000

  /** The step between two leaf indices as the source computes it: a wrapping u64
      subtraction, then its low `depth` bits. */
  function StepBits(r: Modulus, depth: nat, signers: seq<Signer>, i: nat): (bits: seq<int>)
    requires i >= 1
    ensures |bits| == depth && AreBits(bits)
  {
    var diff := if i < |signers| then Wrapped(signers[i].leafIndex - signers[i - 1].leafIndex - 1) else 0;
    IntToBits(Reduce(r, diff), depth)
  }

  function Wrapped(x: int): (y: nat)
    ensures 0 <= x < U64 ==> y == x
  {
    x % U64
  }

  function WitnessSlot(r: Modulus, depth: nat, signers: seq<Signer>, i: nat): Slot {
    var diffBits := if i == 0 then [] else StepBits(r, depth, signers, i);
    if i < |signers| then
      Slot(1, signers[i].secretKey, PadPath(signers[i].merklePath, depth),
           IntToBits(signers[i].leafIndex, depth), diffBits)
    else
      Slot(0, 0, PadPath([], depth), IntToBits(0, depth), diffBits)
  }

  function BinaryOf(r: Modulus, value: int): (bits: seq<int>)
    requires InField(r, value)
    ensures |bits| == BitSize(r) && AreBits(bits)
  {
    IntToBits(value, BitSize(r))
  }

  function Witness(P: Poseidon, depth: nat, kMax: nat, c: Inputs): Assignment {
    var r := P.r;
    var slots := seq(kMax, i requires 0 <= i => WitnessSlot(r, depth, c.signers, i));
    var partial := Assignment(
      c.cOld, Reduce(r, c.epochOld), c.cNew, Reduce(r, c.countOld), Reduce(r, c.countNew),
      c.rootOld, c.rootNew, c.saltOld, c.saltNew,
      BinaryOf(r, Reduce(r, c.countOld)), BinaryOf(r, Reduce(r, c.countNew)), [],
      slots,
      IntToBits(c.delta.position, depth), PadPath(c.delta.path, depth),
      c.delta.OldLeaf(), c.delta.NewLeaf(),
      if c.delta.Insert? then 1 else 0, if c.delta.Remove? then 1 else 0);
    partial.(quorumBits := BinaryOf(r, QuorumDiff(r, partial)))
  }

  // ------------------------------------------------------------ honest inputs

  ghost predicate SignerOpens(P: Poseidon, depth: nat, leaves: seq<int>, s: Signer) {
    InField(P.r, s.secretKey) && s.leafIndex < Pow2(depth)
    && Leaf(leaves, s.leafIndex) == P.HashOne(s.secretKey)
    && s.merklePath == Path(P, leaves, s.leafIndex, depth)
  }

  /** The change of the tree and of the count that a delta claims: it opens place `pos`, where
      the old tree holds `before`, and puts `after` there. */
  ghost predicate Changes(P: Poseidon, depth: nat, leaves: seq<int>, c: Inputs, pos: nat, path: seq<int>, before: int, after: int) {
    pos < |leaves| && leaves[pos] == before && InField(P.r, after)
    && path == Path(P, leaves, pos, depth)
    && c.rootNew == Root(P, leaves[pos := after], depth)
  }

  ghost predicate DeltaDescribes(P: Poseidon, depth: nat, leaves: seq<int>, c: Inputs) {
    match c.delta
    case Insert(pos, path, newLeaf) => Changes(P, depth, leaves, c, pos, path, 0, newLeaf) && c.countNew == c.countOld + 1
    case Remove(pos, path, oldLeaf) => Changes(P, depth, leaves, c, pos, path, oldLeaf, 0) && c.countNew == c.countOld - 1
    case Replace(pos, path, oldLeaf, newLeaf) =>
      Changes(P, depth, leaves, c, pos, path, oldLeaf, newLeaf) && c.countNew == c.countOld
  }

  /** Inputs taken from a real tree: openings, roots, delta and commitments are honest.
      Whether a quorum signs, and in which order, is left open. */
  ghost predicate FromTree(P: Poseidon, depth: nat, leaves: seq<int>, c: Inputs) {
    |leaves| == Pow2(depth) && AllInField(P.r, leaves)
    && (forall i :: 0 <= i < |c.signers| ==> SignerOpens(P, depth, leaves, c.signers[i]))
    && c.rootOld == Root(P, leaves, depth) && DeltaDescribes(P, depth, leaves, c)
    && InField(P.r, c.saltOld) && InField(P.r, c.saltNew)
    && c.cOld == P.HashTwo(P.HashTwo(c.rootOld, Reduce(P.r, c.epochOld)), c.saltOld)
    && c.cNew == P.HashTwo(P.HashTwo(c.rootNew, Add(P.r, Reduce(P.r, c.epochOld), 1)), c.saltNew)
  }

  /** The signers that get a slot: a list longer than `kMax` is cut. */
  function Seated(c: Inputs, kMax: nat): seq<Signer> {
    if |c.signers| <= kMax then c.signers else c.signers[..kMax]
  }

  ghost predicate Ascending(signers: seq<Signer>) {
    forall i :: 1 <= i < |signers| ==> signers[i - 1].leafIndex < signers[i].leafIndex
  }

  /** With a count of zero a signer at every place would overflow the quorum check. */
  ghost predicate QuorumSigns(depth: nat, kMax: nat, c: Inputs) {
    var seated := Seated(c, kMax);
    1 <= |seated| && Ascending(seated) && (1 <= c.countOld || |seated| < Pow2(depth))
    && c.countOld <= 2 * |seated| && c.countOld < Pow2(depth) && c.countNew < Pow2(depth)
  }

  // --------------------------------------------------------------- witness shape

  /** The slots of a placed witness: the signers in their order, then slots that are
      inactive and hold zeros at place zero. */
  lemma WitnessSlotIs(P: Poseidon, depth: nat, kMax: nat, c: Inputs, i: nat)
    requires i < kMax
    ensures var s := Witness(P, depth, kMax, c).slots[i];
      if i < |c.signers| then
        s.active == 1 && s.sk == c.signers[i].secretKey
        && (|c.signers[i].merklePath| == depth ==> s.path == c.signers[i].merklePath)
        && (c.signers[i].leafIndex < Pow2(depth) ==> BitsToInt(s.idxBits) == c.signers[i].leafIndex)
      else
        s.active == 0 && s.sk == 0 && |s.path| == depth && (forall k :: 0 <= k < depth ==> s.path[k] == 0)
        && BitsToInt(s.idxBits) == 0
  {
    BitsRoundTrip(0, depth);
    if i < |c.signers| && c.signers[i].leafIndex < Pow2(depth) {
      BitsRoundTrip(c.signers[i].leafIndex, depth);
    }
  }

  /** The delta part of a placed witness, by cases. */
  lemma WitnessDeltaIs(P: Poseidon, depth: nat, kMax: nat, c: Inputs)
    ensures var a := Witness(P, depth, kMax, c);
      match c.delta
      case Insert(pos, path, newLeaf) =>
        a.oldLeaf == 0 && a.newLeaf == newLeaf && a.isInsert == 1 && a.isRemove == 0
      case Remove(pos, path, oldLeaf) =>
        a.oldLeaf == oldLeaf && a.newLeaf == 0 && a.isInsert == 0 && a.isRemove == 1
      case Replace(pos, path, oldLeaf, newLeaf) =>
        a.oldLeaf == oldLeaf && a.newLeaf == newLeaf && a.isInsert == 0 && a.isRemove == 0
    ensures c.delta.position < Pow2(depth) ==> BitsToInt(Witness(P, depth, kMax, c).posBits) == c.delta.position
  {
    if c.delta.position < Pow2(depth) {
      BitsRoundTrip(c.delta.position, depth);
    }
  }

  lemma BitsInField(r: Modulus, bits: seq<int>)
    requires AreBits(bits)
    ensures AllInField(r, bits)
  {
  }

  lemma WitnessSlotShape(P: Poseidon, depth: nat, leaves: seq<int>, c: Inputs, i: nat)
    requires FromTree(P, depth, leaves, c)
    ensures SlotShape(P.r, depth, i, WitnessSlot(P.r, depth, c.signers, i))
  {
    var s := WitnessSlot(P.r, depth, c.signers, i);
    BitsInField(P.r, s.diffBits);
    BitsInField(P.r, s.idxBits);
    if i < |c.signers| {
      assert SignerOpens(P, depth, leaves, c.signers[i]);
      PathInField(P, leaves, 0, c.signers[i].leafIndex, depth);
    }
  }

  lemma WitnessShape(P: Poseidon, depth: nat, kMax: nat, leaves: seq<int>, c: Inputs)
    requires FromTree(P, depth, leaves, c)
    ensures Shape(P.r, depth, kMax, Witness(P, depth, kMax, c))
  {
    var a := Witness(P, depth, kMax, c);
    forall i | 0 <= i < kMax ensures SlotShape(P.r, depth, i, a.slots[i]) {
      WitnessSlotShape(P, depth, leaves, c, i);
    }
    BitsInField(P.r, a.countOldBits);
    BitsInField(P.r, a.countNewBits);
    BitsInField(P.r, a.quorumBits);
    BitsInField(P.r, a.posBits);
    PathInField(P, leaves, 0, c.delta.position, depth);
    NodeInField(P, leaves, depth, 0);
    assert AllInField(P.r, leaves[c.delta.position := c.delta.NewLeaf()]);
    NodeInField(P, leaves[c.delta.position := c.delta.NewLeaf()], depth, 0);
  }

  // --------------------------------------------------------------- slots satisfy

  lemma WitnessSlotOpens(P: Poseidon, depth: nat, leaves: seq<int>, c: Inputs, i: nat)
    requires IsPrime(P.r)
    requires FromTree(P, depth, leaves, c)
    ensures var s := WitnessSlot(P.r, depth, c.signers, i);
      |s.path| == |s.idxBits| && SlotOpens(P, c.rootOld, s)
  {
    var s := WitnessSlot(P.r, depth, c.signers, i);
    BooleanIsBit(P.r, s.active);
    BitsInField(P.r, s.idxBits);
    BooleansAreBits(P.r, s.idxBits);
    var fold := FoldBits(P, P.HashOne(s.sk), s.path, s.idxBits);
    if i < |c.signers| {
      var g := c.signers[i];
      assert SignerOpens(P, depth, leaves, g);
      PathInField(P, leaves, 0, g.leafIndex, depth);
      BitsRoundTrip(g.leafIndex, depth);
      FoldBitsIsFold(P, P.HashOne(s.sk), s.path, s.idxBits);
      ProofVerifies(P, leaves, g.leafIndex, depth);
      assert fold == c.rootOld;
      MulZero(P.r, 1);
    } else {
      MulZero(P.r, Sub(P.r, fold, c.rootOld));
    }
  }

  lemma WitnessFollows(r: Modulus, depth: nat, signers: seq<Signer>, i: nat)
    requires i >= 1
    ensures SlotFollows(r, WitnessSlot(r, depth, signers, i - 1), WitnessSlot(r, depth, signers, i))
  {
    if i < |signers| {
      ReduceId(r, 0);
      MulZero(r, 1);
    } else {
      MulZero(r, Sub(r, 1, WitnessSlot(r, depth, signers, i - 1).active));
    }
  }

  /** For an ascending pair neither the wrapping subtraction nor the cut loses anything. */
  lemma StepBitsValue(r: Modulus, depth: nat, signers: seq<Signer>, i: nat)
    requires Pow2(depth) <= r && Pow2(depth) <= U64
    requires 1 <= i < |signers|
    requires signers[i - 1].leafIndex < signers[i].leafIndex < Pow2(depth)
    ensures BitsToInt(StepBits(r, depth, signers, i)) == signers[i].leafIndex - signers[i - 1].leafIndex - 1
  {
    var step := signers[i].leafIndex - signers[i - 1].leafIndex - 1;
    ReduceId(r, step);
    BitsRoundTrip(step, depth);
  }

  lemma WitnessAscends(r: Modulus, depth: nat, signers: seq<Signer>, i: nat)
    requires IsPrime(r) && 2 * Pow2(depth) <= r && Pow2(depth) <= U64
    requires i >= 1
    requires i < |signers| ==> signers[i - 1].leafIndex < signers[i].leafIndex < Pow2(depth)
    ensures SlotAscends(r, WitnessSlot(r, depth, signers, i - 1), WitnessSlot(r, depth, signers, i))
  {
    var prev, cur := WitnessSlot(r, depth, signers, i - 1), WitnessSlot(r, depth, signers, i);
    BitsInField(r, cur.diffBits);
    BooleansAreBits(r, cur.diffBits);
    if i < |signers| {
      var step := signers[i].leafIndex - signers[i - 1].leafIndex - 1;
      StepBitsValue(r, depth, signers, i);
      BitsRoundTrip(signers[i - 1].leafIndex, depth);
      BitsRoundTrip(signers[i].leafIndex, depth);
      IndexStepIs(r, prev, cur);
      SubZero(r, BitsValue(r, cur.diffBits), IndexStep(r, prev, cur));
      MulZero(r, 1);
    } else {
      MulZero(r, Sub(r, BitsValue(r, cur.diffBits), IndexStep(r, prev, cur)));
    }
  }

  lemma {:induction false} WitnessCount(P: Poseidon, depth: nat, kMax: nat, c: Inputs, n: nat)
    requires n <= kMax
    ensures |Witness(P, depth, kMax, c).slots| == kMax
    ensures ActiveCount(Witness(P, depth, kMax, c).slots, n) == if n <= |c.signers| then n else |c.signers|
  {
    if n > 0 {
      WitnessCount(P, depth, kMax, c, n - 1);
    }
  }

  lemma WitnessPair(P: Poseidon, depth: nat, kMax: nat, leaves: seq<int>, c: Inputs, i: nat)
    requires IsPrime(P.r) && 2 * Pow2(depth) <= P.r && Pow2(depth) <= U64
    requires FromTree(P, depth, leaves, c) && Ascending(Seated(c, kMax)) && 1 <= i < kMax
    ensures var prev, cur := WitnessSlot(P.r, depth, c.signers, i - 1), WitnessSlot(P.r, depth, c.signers, i);
      SlotFollows(P.r, prev, cur) && SlotAscends(P.r, prev, cur)
  {
    WitnessFollows(P.r, depth, c.signers, i);
    if i < |c.signers| {
      assert SignerOpens(P, depth, leaves, c.signers[i]);
      var seated := Seated(c, kMax);
      assert seated[i - 1].leafIndex < seated[i].leafIndex;
    }
    WitnessAscends(P.r, depth, c.signers, i);
  }

  lemma WitnessSlots(P: Poseidon, depth: nat, kMax: nat, c: Inputs)
    ensures |Witness(P, depth, kMax, c).slots| == kMax
    ensures forall i :: 0 <= i < kMax ==> Witness(P, depth, kMax, c).slots[i] == WitnessSlot(P.r, depth, c.signers, i)
  {
  }

  lemma WitnessSlotsOk(P: Poseidon, depth: nat, kMax: nat, leaves: seq<int>, c: Inputs)
    requires IsPrime(P.r) && 3 * Pow2(depth) <= P.r && Pow2(depth) <= U64
    requires FromTree(P, depth, leaves, c)
    requires Ascending(Seated(c, kMax))
    ensures var a := Witness(P, depth, kMax, c);
      (forall i :: 0 <= i < |a.slots| ==> |a.slots[i].path| == |a.slots[i].idxBits|) && SlotsOk(P, depth, a)
  {
    WitnessSlots(P, depth, kMax, c);
    SlotsAreOk(P, depth, kMax, leaves, c, Witness(P, depth, kMax, c));
  }

  lemma SlotsAreOk(P: Poseidon, depth: nat, kMax: nat, leaves: seq<int>, c: Inputs, a: Assignment)
    requires IsPrime(P.r) && 3 * Pow2(depth) <= P.r && Pow2(depth) <= U64
    requires FromTree(P, depth, leaves, c) && Ascending(Seated(c, kMax))
    requires a.rootOld == c.rootOld && |a.slots| == kMax
    requires forall i :: 0 <= i < kMax ==> a.slots[i] == WitnessSlot(P.r, depth, c.signers, i)
    ensures (forall i :: 0 <= i < |a.slots| ==> |a.slots[i].path| == |a.slots[i].idxBits|) && SlotsOk(P, depth, a)
  {
    forall i | 0 <= i < |a.slots|
      ensures |a.slots[i].path| == |a.slots[i].idxBits| && SlotOpens(P, a.rootOld, a.slots[i])
    {
      WitnessSlotOpens(P, depth, leaves, c, i);
    }
    forall i | 1 <= i < |a.slots|
      ensures SlotFollows(P.r, a.slots[i - 1], a.slots[i]) && SlotAscends(P.r, a.slots[i - 1], a.slots[i])
    {
      WitnessPair(P, depth, kMax, leaves, c, i);
    }
  }

  // --------------------------------------------------------------- counts satisfy

  lemma {:induction false} AscendingBound(signers: seq<Signer>, bound: nat)
    requires Ascending(signers)
    requires forall i :: 0 <= i < |signers| ==> signers[i].leafIndex < bound
    ensures |signers| <= bound
  {
    if signers != [] {
      var last := |signers| - 1;
      AscendingBound(signers[..last], signers[last].leafIndex) by {
        LastIsGreatest(signers);
      }
    }
  }

  lemma {:induction false} LastIsGreatest(signers: seq<Signer>)
    requires signers != [] && Ascending(signers)
    ensures Ascending(signers[..|signers| - 1])
    ensures forall i :: 0 <= i < |signers| - 1 ==> signers[i].leafIndex < signers[|signers| - 1].leafIndex
  {
    var rest := signers[..|signers| - 1];
    if rest != [] {
      LastIsGreatest(rest);
      assert signers[|rest| - 1].leafIndex < signers[|rest|].leafIndex;
    }
  }

  /** Every difference of one, minus one or zero meets the cubic. */
  lemma CubicHolds(r: Modulus, before: int, after: int)
    requires IsPrime(r)
    requires after == before + 1 || after == before - 1 || after == before
    ensures var d := Sub(r, after, before); Mul(r, Mul(r, d, Sub(r, d, 1)), Add(r, d, 1)) == 0
    ensures after == before + 1 ==> Sub(r, Sub(r, after, before), 1) == 0
    ensures after == before - 1 ==> Add(r, Sub(r, after, before), 1) == 0
    ensures after == before ==> Sub(r, after, before) == 0
  {
    var d := Sub(r, after, before);
    ReduceAddLeft(r, after - before, -1);
    ReduceAddLeft(r, after - before, 1);
    ReduceId(r, 0);
    NoZeroDivisors(r, d, Sub(r, d, 1));
    NoZeroDivisors(r, Mul(r, d, Sub(r, d, 1)), Add(r, d, 1));
  }

  lemma WitnessKind(P: Poseidon, depth: nat, kMax: nat, leaves: seq<int>, c: Inputs)
    requires IsPrime(P.r) && FromTree(P, depth, leaves, c)
    requires InField(P.r, c.countOld) && InField(P.r, c.countNew)
    ensures CountStep(P.r, Witness(P, depth, kMax, c))
    ensures DeltaKind(P.r, Witness(P, depth, kMax, c))
  {
    var r := P.r;
    var a := Witness(P, depth, kMax, c);
    ReduceId(r, c.countOld);
    ReduceId(r, c.countNew);
    CubicHolds(r, a.countOld, a.countNew);
    BooleanIsBit(r, a.isInsert);
    BooleanIsBit(r, a.isRemove);
    MulZero(r, 1);
    var d := Sub(r, a.countNew, a.countOld);
    MulZero(r, a.oldLeaf);
    MulZero(r, a.newLeaf);
    MulZero(r, Sub(r, d, 1));
    MulZero(r, Add(r, d, 1));
    MulZero(r, d);
    ReduceId(r, 0);
    ReduceId(r, 1);
    MulZero(r, Sub(r, Sub(r, 1, a.isInsert), a.isRemove));
  }

  lemma WitnessDelta(P: Poseidon, depth: nat, kMax: nat, leaves: seq<int>, c: Inputs)
    requires IsPrime(P.r) && FromTree(P, depth, leaves, c)
    ensures |Witness(P, depth, kMax, c).posBits| == |Witness(P, depth, kMax, c).deltaPath|
    ensures DeltaOpens(P, Witness(P, depth, kMax, c))
  {
    var a := Witness(P, depth, kMax, c);
    var pos := c.delta.position;
    BitsInField(P.r, a.posBits);
    BooleansAreBits(P.r, a.posBits);
    PathInField(P, leaves, 0, pos, depth);
    BitsRoundTrip(pos, depth);
    FoldBitsIsFold(P, a.oldLeaf, a.deltaPath, a.posBits);
    FoldBitsIsFold(P, a.newLeaf, a.deltaPath, a.posBits);
    ProofVerifies(P, leaves, pos, depth);
    UpdatedRoot(P, leaves, pos, c.delta.NewLeaf(), depth);
  }

  lemma WitnessQuorumDiff(P: Poseidon, depth: nat, kMax: nat, c: Inputs)
    requires InField(P.r, c.countOld)
    ensures QuorumDiff(P.r, Witness(P, depth, kMax, c)) == Reduce(P.r, 2 * |Seated(c, kMax)| - c.countOld)
    ensures SignerCount(Witness(P, depth, kMax, c)) == |Seated(c, kMax)|
  {
    ReduceId(P.r, c.countOld);
    WitnessCount(P, depth, kMax, c, kMax);
    QuorumDiffIs(P.r, Witness(P, depth, kMax, c));
  }

  lemma SeatedBound(P: Poseidon, depth: nat, kMax: nat, leaves: seq<int>, c: Inputs)
    requires FromTree(P, depth, leaves, c) && Ascending(Seated(c, kMax))
    ensures |Seated(c, kMax)| <= Pow2(depth)
  {
    var seated := Seated(c, kMax);
    forall i | 0 <= i < |seated| ensures seated[i].leafIndex < Pow2(depth) {
      assert SignerOpens(P, depth, leaves, c.signers[i]);
    }
    AscendingBound(seated, Pow2(depth));
  }

  lemma CountsFit(r: Modulus, depth: nat, a: Assignment)
    requires IsPrime(r) && InField(r, a.countOld) && InField(r, a.countNew)
    requires a.countOldBits == BinaryOf(r, a.countOld) && a.countNewBits == BinaryOf(r, a.countNew)
    requires a.quorumBits == BinaryOf(r, QuorumDiff(r, a))
    ensures FitsInBits(r, a.countOld, a.countOldBits, depth) <==> a.countOld < Pow2(depth)
    ensures FitsInBits(r, a.countNew, a.countNewBits, depth) <==> a.countNew < Pow2(depth)
    ensures FitsInBits(r, QuorumDiff(r, a), a.quorumBits, depth + 1) <==> QuorumDiff(r, a) < Pow2(depth + 1)
  {
    BelowFits(r, a.countOld, depth);
    BelowFits(r, a.countNew, depth);
    BelowFits(r, QuorumDiff(r, a), depth + 1);
  }

  lemma WitnessBits(P: Poseidon, depth: nat, kMax: nat, c: Inputs)
    ensures var a := Witness(P, depth, kMax, c);
      a.countOldBits == BinaryOf(P.r, a.countOld) && a.countNewBits == BinaryOf(P.r, a.countNew)
      && a.quorumBits == BinaryOf(P.r, QuorumDiff(P.r, a))
  {
  }

  lemma QuorumFits(P: Poseidon, depth: nat, kMax: nat, leaves: seq<int>, c: Inputs)
    requires 3 * Pow2(depth) <= P.r && FromTree(P, depth, leaves, c)
    requires QuorumSigns(depth, kMax, c)
    ensures QuorumDiff(P.r, Witness(P, depth, kMax, c)) < Pow2(depth + 1)
  {
    WitnessQuorumDiff(P, depth, kMax, c);
    SeatedBound(P, depth, kMax, leaves, c);
    ReduceId(P.r, 2 * |Seated(c, kMax)| - c.countOld);
  }

  lemma WitnessCounts(P: Poseidon, depth: nat, kMax: nat, c: Inputs)
    requires InField(P.r, c.countOld) && InField(P.r, c.countNew)
    ensures Witness(P, depth, kMax, c).countOld == c.countOld && Witness(P, depth, kMax, c).countNew == c.countNew
  {
    ReduceId(P.r, c.countOld);
    ReduceId(P.r, c.countNew);
  }

  lemma WitnessQuorum(P: Poseidon, depth: nat, kMax: nat, leaves: seq<int>, c: Inputs)
    requires IsPrime(P.r) && 3 * Pow2(depth) <= P.r
    requires FromTree(P, depth, leaves, c)
    requires QuorumSigns(depth, kMax, c)
    ensures CountsOk(P.r, depth, Witness(P, depth, kMax, c))
  {
    WitnessCounts(P, depth, kMax, c);
    QuorumFits(P, depth, kMax, leaves, c);
    WitnessBits(P, depth, kMax, c);
    CountsFit(P.r, depth, Witness(P, depth, kMax, c));
    WitnessKind(P, depth, kMax, leaves, c);
  }

  // -------------------------------------------------------------------- theorem

  /** Completeness with its exact condition: inputs taken from a real tree satisfy every
      constraint, padding slots included, exactly when the seated signers are a strictly
      ascending quorum, both counts lie below capacity, and an old count of zero does not
      meet a signer at every place. */
  lemma DemocracyComplete(P: Poseidon, depth: nat, kMax: nat, leaves: seq<int>, c: Inputs)
    requires IsPrime(P.r) && 3 * Pow2(depth) <= P.r && Pow2(depth) <= U64
    requires kMax >= 1
    requires FromTree(P, depth, leaves, c)
    requires InField(P.r, c.countOld) && InField(P.r, c.countNew)
    ensures Satisfied(P, depth, kMax, Witness(P, depth, kMax, c)) <==> QuorumSigns(depth, kMax, c)
  {
    var a := Witness(P, depth, kMax, c);
    if QuorumSigns(depth, kMax, c) {
      WitnessShape(P, depth, kMax, leaves, c);
      WitnessQuorum(P, depth, kMax, leaves, c);
      WitnessSlotsOk(P, depth, kMax, leaves, c);
      WitnessDelta(P, depth, kMax, leaves, c);
      WitnessKind(P, depth, kMax, leaves, c);
      assert c.signers != [];
      assert a.slots[0].active == 1;
    }
    if Satisfied(P, depth, kMax, a) {
      SatisfiedNeedsQuorum(P, depth, kMax, leaves, c);
    }
  }

  lemma SlotsAscend(P: Poseidon, depth: nat, kMax: nat, leaves: seq<int>, c: Inputs, slots: seq<Slot>)
    requires FromTree(P, depth, leaves, c) && |slots| == kMax
    requires forall i :: 0 <= i < kMax ==> slots[i] == WitnessSlot(P.r, depth, c.signers, i)
    requires forall i, j :: 0 <= i < j < |Seated(c, kMax)| ==> SlotIndex(slots[i]) < SlotIndex(slots[j])
    ensures Ascending(Seated(c, kMax))
  {
    var seated := Seated(c, kMax);
    forall i | 1 <= i < |seated| ensures seated[i - 1].leafIndex < seated[i].leafIndex {
      assert SlotIndex(slots[i - 1]) < SlotIndex(slots[i]);
      WitnessIndex(P, depth, leaves, c, i - 1);
      WitnessIndex(P, depth, leaves, c, i);
    }
  }

  lemma SatisfiedNeedsQuorum(P: Poseidon, depth: nat, kMax: nat, leaves: seq<int>, c: Inputs)
    requires IsPrime(P.r) && 3 * Pow2(depth) <= P.r
    requires FromTree(P, depth, leaves, c)
    requires InField(P.r, c.countOld) && InField(P.r, c.countNew)
    requires Satisfied(P, depth, kMax, Witness(P, depth, kMax, c))
    ensures QuorumSigns(depth, kMax, c)
  {
    var a := Witness(P, depth, kMax, c);
    DemocracySound(P, depth, kMax, a);
    CountBelowCapacity(P, depth, kMax, a);
    WitnessCounts(P, depth, kMax, c);
    WitnessQuorumDiff(P, depth, kMax, c);
    WitnessSlots(P, depth, kMax, c);
    SlotsAscend(P, depth, kMax, leaves, c, a.slots);
  }

  lemma WitnessIndex(P: Poseidon, depth: nat, leaves: seq<int>, c: Inputs, i: nat)
    requires FromTree(P, depth, leaves, c) && i < |c.signers|
    ensures SlotIndex(WitnessSlot(P.r, depth, c.signers, i)) == c.signers[i].leafIndex
  {
    assert SignerOpens(P, depth, leaves, c.signers[i]);
    BitsRoundTrip(c.signers[i].leafIndex, depth);
  }
}
