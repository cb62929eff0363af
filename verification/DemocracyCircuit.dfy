/** The democracy update circuit: its constraints over an arbitrary assignment. */
module DemocracyCircuit {
  import opened PrimeField
  import opened PoseidonHash
  import opened Bits
  import opened Gadgets

  /** One signer slot as the prover fills it; `diffBits` belongs to the ordering check
      against the slot before, so slot 0 has none. */
  datatype Slot = Slot(active: int, sk: int, path: seq<int>, idxBits: seq<int>, diffBits: seq<int>)

  datatype Assignment = Assignment(
    cOld: int, epochOld: int, cNew: int, countOld: int, countNew: int,
    rootOld: int, rootNew: int, saltOld: int, saltNew: int,
    countOldBits: seq<int>, countNewBits: seq<int>, quorumBits: seq<int>,
    slots: seq<Slot>,
    posBits: seq<int>, deltaPath: seq<int>, oldLeaf: int, newLeaf: int,
    isInsert: int, isRemove: int)

  ghost predicate SlotShape(r: Modulus, depth: nat, i: nat, s: Slot) {
    InField(r, s.active) && InField(r, s.sk)
    && |s.path| == depth && AllInField(r, s.path)
    && |s.idxBits| == depth && AllInField(r, s.idxBits)
    && |s.diffBits| == (if i == 0 then 0 else depth) && AllInField(r, s.diffBits)
  }

  /** What allocation fixes: how many variables there are, each a field element. */
  ghost predicate Shape(r: Modulus, depth: nat, kMax: nat, a: Assignment) {
    InField(r, a.cOld) && InField(r, a.epochOld) && InField(r, a.cNew)
    && InField(r, a.countOld) && InField(r, a.countNew)
    && InField(r, a.rootOld) && InField(r, a.rootNew) && InField(r, a.saltOld) && InField(r, a.saltNew)
    && |a.countOldBits| == BitSize(r) && AllInField(r, a.countOldBits)
    && |a.countNewBits| == BitSize(r) && AllInField(r, a.countNewBits)
    && |a.quorumBits| == BitSize(r) && AllInField(r, a.quorumBits)
    && |a.slots| == kMax && (forall i :: 0 <= i < kMax ==> SlotShape(r, depth, i, a.slots[i]))
    && |a.posBits| == depth && AllInField(r, a.posBits)
    && |a.deltaPath| == depth && AllInField(r, a.deltaPath)
    && InField(r, a.oldLeaf) && InField(r, a.newLeaf)
    && InField(r, a.isInsert) && InField(r, a.isRemove)
  }

  // ------------------------------------------------------ constraints by section

  /** (D, E) Booleans of a slot, and its opening gated by the active bit. */
  predicate SlotOpens(P: Poseidon, rootOld: int, s: Slot)
    requires |s.path| == |s.idxBits|
  {
    IsBoolean(P.r, s.active) && AllBoolean(P.r, s.idxBits)
    && Mul(P.r, Sub(P.r, FoldBits(P, P.HashOne(s.sk), s.path, s.idxBits), rootOld), s.active) == 0
  }

  /** (F) An active slot follows an active slot. */
  predicate SlotFollows(r: Modulus, prev: Slot, cur: Slot) {
    Mul(r, cur.active, Sub(r, 1, prev.active)) == 0
  }

  function IndexStep(r: Modulus, prev: Slot, cur: Slot): int {
    Sub(r, Sub(r, BitsValue(r, cur.idxBits), BitsValue(r, prev.idxBits)), 1)
  }

  /** (G) The index step of an active slot is packed in `depth` Boolean witnesses. */
  predicate SlotAscends(r: Modulus, prev: Slot, cur: Slot) {
    AllBoolean(r, cur.diffBits)
    && Mul(r, Sub(r, BitsValue(r, cur.diffBits), IndexStep(r, prev, cur)), cur.active) == 0
  }

  /** (H) The running sum of the first `n` active bits. */
  function ActiveSum(r: Modulus, slots: seq<Slot>, n: nat): (k: int)
    requires n <= |slots|
    ensures InField(r, k)
  {
    if n == 0 then 0 else Add(r, ActiveSum(r, slots, n - 1), slots[n - 1].active)
  }

  function QuorumDiff(r: Modulus, a: Assignment): int {
    var k := ActiveSum(r, a.slots, |a.slots|);
    Sub(r, Add(r, k, k), a.countOld)
  }

  /** (I) d·(d - 1)·(d + 1) = 0 for the count difference d. */
  predicate CountStep(r: Modulus, a: Assignment) {
    var d := Sub(r, a.countNew, a.countOld);
    Mul(r, Mul(r, d, Sub(r, d, 1)), Add(r, d, 1)) == 0
  }

  /** (J) Old and new leaf fold along one path, at one position, to the two roots. */
  predicate DeltaOpens(P: Poseidon, a: Assignment)
    requires |a.posBits| == |a.deltaPath|
  {
    AllBoolean(P.r, a.posBits)
    && FoldBits(P, a.oldLeaf, a.deltaPath, a.posBits) == a.rootOld
    && FoldBits(P, a.newLeaf, a.deltaPath, a.posBits) == a.rootNew
  }

  /** (K) The kind flags and what each flag gates. */
  predicate DeltaKind(r: Modulus, a: Assignment) {
    var d := Sub(r, a.countNew, a.countOld);
    IsBoolean(r, a.isInsert) && IsBoolean(r, a.isRemove)
    && Mul(r, a.isInsert, a.isRemove) == 0
    && Mul(r, a.isInsert, a.oldLeaf) == 0
    && Mul(r, a.isRemove, a.newLeaf) == 0
    && Mul(r, a.isInsert, Sub(r, d, 1)) == 0
    && Mul(r, a.isRemove, Add(r, d, 1)) == 0
    && Mul(r, Sub(r, Sub(r, 1, a.isInsert), a.isRemove), d) == 0
  }

  /** (L) Both commitments; the new epoch is derived in the circuit. */
  predicate CommitsTo(P: Poseidon, a: Assignment) {
    Commit(P, a.rootOld, a.epochOld, a.saltOld) == a.cOld
    && Commit(P, a.rootNew, Add(P.r, a.epochOld, 1), a.saltNew) == a.cNew
  }

  predicate SlotsOk(P: Poseidon, depth: nat, a: Assignment)
    requires forall i :: 0 <= i < |a.slots| ==> |a.slots[i].path| == |a.slots[i].idxBits|
  {
    (forall i :: 0 <= i < |a.slots| ==> SlotOpens(P, a.rootOld, a.slots[i]))
    && (forall i :: 1 <= i < |a.slots| ==> SlotFollows(P.r, a.slots[i - 1], a.slots[i]))
    && (forall i :: 1 <= i < |a.slots| ==> SlotAscends(P.r, a.slots[i - 1], a.slots[i]))
  }

  predicate CountsOk(r: Modulus, depth: nat, a: Assignment) {
    FitsInBits(r, a.countOld, a.countOldBits, depth)
    && FitsInBits(r, a.countNew, a.countNewBits, depth)
    && FitsInBits(r, QuorumDiff(r, a), a.quorumBits, depth + 1)
    && CountStep(r, a)
  }

  /** Every constraint of the circuit holds of the assignment. */
  ghost predicate Satisfied(P: Poseidon, depth: nat, kMax: nat, a: Assignment) {
    kMax >= 1 && Shape(P.r, depth, kMax, a)
    && CountsOk(P.r, depth, a)
    && SlotsOk(P, depth, a)
    && a.slots[0].active == 1
    && DeltaOpens(P, a)
    && DeltaKind(P.r, a)
    && CommitsTo(P, a)
  }

  // ------------------------------------------------------------ the synthesizer

  /** Sections D and E, slot by slot.  Returns the packed leaf indices. */
  method OpenSlots(cs: ConstraintSystem, P: Poseidon, depth: nat, a: Assignment) returns (indices: seq<int>)
    requires forall i :: 0 <= i < |a.slots| ==> |a.slots[i].path| == |a.slots[i].idxBits|
    modifies cs
    ensures cs.satisfied == (old(cs.satisfied)
      && forall i :: 0 <= i < |a.slots| ==> SlotOpens(P, a.rootOld, a.slots[i]))
    ensures |indices| == |a.slots|
    ensures forall i :: 0 <= i < |a.slots| ==> indices[i] == BitsValue(P.r, a.slots[i].idxBits)
  {
    indices := [];
    for i := 0 to |a.slots|
      invariant cs.satisfied == (old(cs.satisfied)
        && forall k :: 0 <= k < i ==> SlotOpens(P, a.rootOld, a.slots[k]))
      invariant |indices| == i
      invariant forall k :: 0 <= k < i ==> indices[k] == BitsValue(P.r, a.slots[k].idxBits)
    {
      var s := a.slots[i];
      cs.EnforceEqual(Mul(P.r, Sub(P.r, 1, s.active), s.active), 0);
      AllocateBooleans(cs, P.r, s.idxBits);
      var current := FoldMerklePath(P, P.HashOne(s.sk), s.path, s.idxBits);
      cs.EnforceEqual(Mul(P.r, Sub(P.r, current, a.rootOld), s.active), 0);
      var idx := BitsToFp(P.r, s.idxBits);
      indices := indices + [idx];
    }
  }

  /** Sections F and G. */
  method OrderSlots(cs: ConstraintSystem, r: Modulus, a: Assignment, indices: seq<int>)
    requires |indices| == |a.slots|
    requires forall i :: 0 <= i < |a.slots| ==> indices[i] == BitsValue(r, a.slots[i].idxBits)
    modifies cs
    ensures cs.satisfied == (old(cs.satisfied)
      && (forall i :: 1 <= i < |a.slots| ==> SlotFollows(r, a.slots[i - 1], a.slots[i]))
      && (forall i :: 1 <= i < |a.slots| ==> SlotAscends(r, a.slots[i - 1], a.slots[i])))
  {
    var n := |a.slots|;
    var i := 1;
    while i < n
      invariant 1 <= i && (i <= n || i == 1)
      invariant cs.satisfied == (old(cs.satisfied)
        && forall k :: 1 <= k < i && k < n ==> SlotFollows(r, a.slots[k - 1], a.slots[k]))
    {
      cs.EnforceEqual(Mul(r, a.slots[i].active, Sub(r, 1, a.slots[i - 1].active)), 0);
      i := i + 1;
    }
    i := 1;
    ghost var prefix := cs.satisfied;
    while i < n
      invariant 1 <= i && (i <= n || i == 1)
      invariant cs.satisfied == (prefix
        && forall k :: 1 <= k < i && k < n ==> SlotAscends(r, a.slots[k - 1], a.slots[k]))
    {
      var diff := Sub(r, Sub(r, indices[i], indices[i - 1]), 1);
      AllocateBooleans(cs, r, a.slots[i].diffBits);
      var packed := BitsToFp(r, a.slots[i].diffBits);
      cs.EnforceEqual(Mul(r, Sub(r, packed, diff), a.slots[i].active), 0);
      i := i + 1;
    }
  }

  /** Section H's sum and its range check. */
  method EnforceQuorum(cs: ConstraintSystem, r: Modulus, depth: nat, a: Assignment)
    requires |a.slots| >= 1 && |a.quorumBits| == BitSize(r)
    modifies cs
    ensures cs.satisfied == (old(cs.satisfied) && a.slots[0].active == 1
      && FitsInBits(r, QuorumDiff(r, a), a.quorumBits, depth + 1))
  {
    cs.EnforceEqual(a.slots[0].active, 1);
    var kSum := 0;
    for i := 0 to |a.slots|
      invariant kSum == ActiveSum(r, a.slots, i)
    {
      kSum := Add(r, kSum, a.slots[i].active);
    }
    EnforceFitsInBits(cs, r, Sub(r, Add(r, kSum, kSum), a.countOld), a.quorumBits, depth + 1);
  }

  /** Sections I to L. */
  method EnforceDelta(cs: ConstraintSystem, P: Poseidon, a: Assignment)
    requires |a.posBits| == |a.deltaPath|
    modifies cs
    ensures cs.satisfied == (old(cs.satisfied)
      && CountStep(P.r, a) && DeltaOpens(P, a) && DeltaKind(P.r, a) && CommitsTo(P, a))
  {
    var r := P.r;
    var d := Sub(r, a.countNew, a.countOld);
    cs.EnforceEqual(Mul(r, Mul(r, d, Sub(r, d, 1)), Add(r, d, 1)), 0);

    AllocateBooleans(cs, r, a.posBits);
    var oldRoot := FoldMerklePath(P, a.oldLeaf, a.deltaPath, a.posBits);
    var newRoot := FoldMerklePath(P, a.newLeaf, a.deltaPath, a.posBits);
    cs.EnforceEqual(oldRoot, a.rootOld);
    cs.EnforceEqual(newRoot, a.rootNew);

    AllocateBooleans(cs, r, [a.isInsert]);
    AllocateBooleans(cs, r, [a.isRemove]);
    assert AllBoolean(r, [a.isInsert]) == IsBoolean(r, a.isInsert) by { assert [a.isInsert][0] == a.isInsert; }
    assert AllBoolean(r, [a.isRemove]) == IsBoolean(r, a.isRemove) by { assert [a.isRemove][0] == a.isRemove; }
    cs.EnforceEqual(Mul(r, a.isInsert, a.isRemove), 0);
    cs.EnforceEqual(Mul(r, a.isInsert, a.oldLeaf), 0);
    cs.EnforceEqual(Mul(r, a.isRemove, a.newLeaf), 0);
    cs.EnforceEqual(Mul(r, a.isInsert, Sub(r, d, 1)), 0);
    cs.EnforceEqual(Mul(r, a.isRemove, Add(r, d, 1)), 0);
    cs.EnforceEqual(Mul(r, Sub(r, Sub(r, 1, a.isInsert), a.isRemove), d), 0);

    cs.EnforceEqual(Commit(P, a.rootOld, a.epochOld, a.saltOld), a.cOld);
    cs.EnforceEqual(Commit(P, a.rootNew, Add(r, a.epochOld, 1), a.saltNew), a.cNew);
  }

  /** The circuit on a filled-in assignment.  With no slots the source indexes an empty
      vector, hence `kMax >= 1`. */
  method GenerateConstraints(cs: ConstraintSystem, P: Poseidon, depth: nat, kMax: nat, a: Assignment)
    requires kMax >= 1 && Shape(P.r, depth, kMax, a)
    modifies cs
    ensures cs.satisfied == (old(cs.satisfied) && Satisfied(P, depth, kMax, a))
  {
    EnforceFitsInBits(cs, P.r, a.countOld, a.countOldBits, depth);
    EnforceFitsInBits(cs, P.r, a.countNew, a.countNewBits, depth);
    assert forall i :: 0 <= i < |a.slots| ==> SlotShape(P.r, depth, i, a.slots[i]);
    var indices := OpenSlots(cs, P, depth, a);
    OrderSlots(cs, P.r, a, indices);
    EnforceQuorum(cs, P.r, depth, a);
    EnforceDelta(cs, P, a);
  }
}
