/** Circuit gadgets shared by the three circuits: what each constraint says of an
    arbitrary assignment, and what that means over the integers. */
module Gadgets {
  import opened PrimeField
  import opened PoseidonHash
  import opened Bits
  import opened MerkleTree

  /** The constraint system, evaluated as `is_satisfied` does: every variable already has
      its value, and each enforced equation either holds or spoils the system. */
  class ConstraintSystem {
    var satisfied: bool

    constructor ()
      ensures satisfied
    {
      satisfied := true;
    }

    method EnforceEqual(a: int, b: int)
      modifies this
      ensures satisfied == (old(satisfied) && a == b)
    {
      satisfied := satisfied && a == b;
    }

    /** The comparison gadget that keeps a bit string below the modulus. */
    method EnforceBelow(a: int, bound: int)
      modifies this
      ensures satisfied == (old(satisfied) && a < bound)
    {
      satisfied := satisfied && a < bound;
    }
  }

  // ------------------------------------------------------------------ Booleans

  /** The constraint added when a Boolean witness is allocated: (1 - b)·b = 0. */
  predicate IsBoolean(r: Modulus, b: int) {
    Mul(r, Sub(r, 1, b), b) == 0
  }

  predicate AllBoolean(r: Modulus, bits: seq<int>) {
    forall i :: 0 <= i < |bits| ==> IsBoolean(r, bits[i])
  }

  lemma BooleanIsBit(r: Modulus, b: int)
    requires IsPrime(r) && InField(r, b)
    ensures IsBoolean(r, b) <==> b == 0 || b == 1
  {
    NoZeroDivisors(r, Sub(r, 1, b), b);
    SubZero(r, 1, b);
  }

  lemma BooleansAreBits(r: Modulus, bits: seq<int>)
    requires IsPrime(r) && AllInField(r, bits)
    ensures AllBoolean(r, bits) <==> AreBits(bits)
  {
    forall i | 0 <= i < |bits| ensures IsBoolean(r, bits[i]) <==> bits[i] == 0 || bits[i] == 1 {
      BooleanIsBit(r, bits[i]);
    }
  }

  method AllocateBooleans(cs: ConstraintSystem, r: Modulus, bits: seq<int>)
    modifies cs
    ensures cs.satisfied == (old(cs.satisfied) && AllBoolean(r, bits))
  {
    for i := 0 to |bits|
      invariant cs.satisfied == (old(cs.satisfied) && AllBoolean(r, bits[..i]))
    {
      assert bits[..i + 1] == bits[..i] + [bits[i]];
      cs.EnforceEqual(Mul(r, Sub(r, 1, bits[i]), bits[i]), 0);
    }
    assert bits[..|bits|] == bits;
  }

  // ------------------------------------------------- selection and Merkle folds

  /** `conditionally_select`: f + c·(t - f). */
  function Select(r: Modulus, c: int, t: int, f: int): int {
    Add(r, f, Mul(r, c, Sub(r, t, f)))
  }

  lemma SelectBit(r: Modulus, c: int, t: int, f: int)
    requires InField(r, t) && InField(r, f)
    requires c == 0 || c == 1
    ensures Select(r, c, t, f) == if c == 1 then t else f
  {
    if c == 1 {
      MulOne(r, Sub(r, t, f));
      ReduceAddLeft(r, t - f, f);
      ReduceId(r, t);
    } else {
      MulZero(r, Sub(r, t, f));
      ReduceId(r, f);
    }
  }

  function SelectStep(P: Poseidon, current: int, sibling: int, isRight: int): int {
    P.HashTwo(Select(P.r, isRight, sibling, current), Select(P.r, isRight, current, sibling))
  }

  /** The in-circuit fold, for any values in the direction slots. */
  function FoldBits(P: Poseidon, leaf: int, path: seq<int>, bits: seq<int>): int
    requires |path| == |bits|
    decreases |path|
  {
    if path == [] then leaf
    else FoldBits(P, SelectStep(P, leaf, path[0], bits[0]), path[1..], bits[1..])
  }

  /** With genuine bits the in-circuit fold is the tree's own fold at the packed index. */
  lemma {:induction false} FoldBitsIsFold(P: Poseidon, leaf: int, path: seq<int>, bits: seq<int>)
    requires |path| == |bits| && AreBits(bits)
    requires InField(P.r, leaf) && AllInField(P.r, path)
    ensures BitsToInt(bits) >= 0
    ensures FoldBits(P, leaf, path, bits) == Fold(P, leaf, path, BitsToInt(bits))
    decreases |path|
  {
    BitsBound(bits);
    if path != [] {
      SelectBit(P.r, bits[0], path[0], leaf);
      SelectBit(P.r, bits[0], leaf, path[0]);
      BitsBound(bits[1..]);
      FoldBitsIsFold(P, Step(P, leaf, path[0], BitsToInt(bits)), path[1..], bits[1..]);
    }
  }

  method FoldMerklePath(P: Poseidon, leaf: int, path: seq<int>, bits: seq<int>) returns (root: int)
    requires |path| == |bits|
    ensures root == FoldBits(P, leaf, path, bits)
  {
    root := leaf;
    for level := 0 to |path|
      invariant FoldBits(P, root, path[level..], bits[level..]) == FoldBits(P, leaf, path, bits)
    {
      var left := Select(P.r, bits[level], path[level], root);
      var right := Select(P.r, bits[level], root, path[level]);
      assert path[level..][1..] == path[level + 1..];
      assert bits[level..][1..] == bits[level + 1..];
      root := P.HashTwo(left, right);
    }
  }

  // ------------------------------------------------------------------- packing

  /** A bit string packed into a field element. */
  function BitsValue(r: Modulus, bits: seq<int>): (v: int)
    ensures InField(r, v)
  {
    Reduce(r, BitsToInt(bits))
  }

  method BitsToFp(r: Modulus, bits: seq<int>) returns (acc: int)
    ensures acc == BitsValue(r, bits)
  {
    acc := 0;
    var coeff := 1;
    for i := 0 to |bits|
      invariant Add(r, acc, Mul(r, coeff, BitsToInt(bits[i..]))) == BitsValue(r, bits)
      invariant InField(r, acc) && InField(r, coeff)
    {
      PackStep(r, acc, coeff, bits[i], BitsToInt(bits[i + 1..]));
      assert bits[i..][1..] == bits[i + 1..];
      acc := Add(r, acc, Mul(r, bits[i], coeff));
      coeff := Add(r, coeff, coeff);
    }
    MulZero(r, coeff);
    ReduceId(r, acc);
  }

  /** One turn of the packing loop keeps the packed value. */
  lemma PackStep(r: Modulus, acc: int, coeff: int, bit: int, rest: int)
    ensures Add(r, Add(r, acc, Mul(r, bit, coeff)), Mul(r, Add(r, coeff, coeff), rest))
         == Add(r, acc, Mul(r, coeff, bit + 2 * rest))
  {
    var whole := coeff * (bit + 2 * rest);
    assert whole == bit * coeff + (coeff + coeff) * rest by { Distribute(coeff, bit, rest); }
    ReduceMulLeft(r, coeff + coeff, rest);
    ReduceSum(r, acc, bit * coeff, (coeff + coeff) * rest);
    ReduceAddLeft(r, whole, acc);
  }

  lemma Distribute(c: int, b: int, t: int)
    ensures c * (b + 2 * t) == b * c + (c + c) * t
  {
  }

  // --------------------------------------------------------------- range checks

  /** `to_bits_le`: Boolean witnesses, one per bit of the modulus, that sum to the value
      and lie below the modulus. */
  predicate CanonicalBits(r: Modulus, value: int, bits: seq<int>) {
    |bits| == BitSize(r)
    && AllBoolean(r, bits)
    && BitsValue(r, bits) == value
    && BitsToInt(bits) < r
  }

  predicate FitsInBits(r: Modulus, value: int, bits: seq<int>, n: nat) {
    CanonicalBits(r, value, bits)
    && forall i :: n <= i < |bits| ==> bits[i] == 0
  }

  method EnforceFitsInBits(cs: ConstraintSystem, r: Modulus, value: int, bits: seq<int>, n: nat)
    requires |bits| == BitSize(r)
    modifies cs
    ensures cs.satisfied == (old(cs.satisfied) && FitsInBits(r, value, bits, n))
  {
    AllocateBooleans(cs, r, bits);
    var packed := BitsToFp(r, bits);
    cs.EnforceEqual(packed, value);
    cs.EnforceBelow(BitsToInt(bits), r);
    ghost var canonical := cs.satisfied;
    var i := n;
    while i < |bits|
      invariant n <= i && (i <= |bits| || i == n)
      invariant cs.satisfied == (canonical && forall k :: n <= k < i && k < |bits| ==> bits[k] == 0)
    {
      cs.EnforceEqual(bits[i], 0);
      i := i + 1;
    }
  }

  /** The range check holds of some decomposition exactly for the values below 2^n, and
      the decomposition is then the binary expansion. */
  lemma FitsMeansBelow(r: Modulus, value: int, bits: seq<int>, n: nat)
    requires IsPrime(r) && AllInField(r, bits)
    requires FitsInBits(r, value, bits, n)
    ensures 0 <= value < Pow2(n)
  {
    BooleansAreBits(r, bits);
    BitsBound(bits);
    ReduceId(r, BitsToInt(bits));
    HighBitsZero(bits, n);
  }

  lemma BelowFits(r: Modulus, value: int, n: nat)
    requires IsPrime(r) && InField(r, value)
    ensures AllInField(r, IntToBits(value, BitSize(r)))
    ensures FitsInBits(r, value, IntToBits(value, BitSize(r)), n) <==> value < Pow2(n)
  {
    var bits := IntToBits(value, BitSize(r));
    BooleansAreBits(r, bits);
    BelowPow2BitSize(r);
    BitsRoundTrip(value, BitSize(r));
    ReduceId(r, value);
    HighBitsZero(bits, n);
  }
}
