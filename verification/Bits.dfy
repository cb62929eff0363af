/** Little-endian bit strings, held as integers so that a circuit may place any field
    element in a bit position; `AreBits` says when they are genuine bits. */
module Bits {

  function Pow2(n: nat): (p: nat)
    ensures p >= 1
  {
    if n == 0 then 1 else 2 * Pow2(n - 1)
  }

  predicate AreBits(bits: seq<int>) {
    forall i :: 0 <= i < |bits| ==> bits[i] == 0 || bits[i] == 1
  }

  /** The weighted sum of a bit string, entry `i` having weight 2^i. */
  function BitsToInt(bits: seq<int>): int {
    if bits == [] then 0 else bits[0] + 2 * BitsToInt(bits[1..])
  }

  function IntToBits(x: nat, n: nat): (bits: seq<int>)
    ensures |bits| == n && AreBits(bits)
  {
    if n == 0 then [] else [x % 2] + IntToBits(x / 2, n - 1)
  }

  /** Number of bits needed to write every value up to `x`. */
  function BitSize(x: nat): nat {
    if x == 0 then 0 else 1 + BitSize(x / 2)
  }

  lemma {:induction false} BelowPow2BitSize(x: nat)
    ensures x < Pow2(BitSize(x))
  {
    if x > 0 {
      BelowPow2BitSize(x / 2);
    }
  }

  lemma {:induction false} Pow2Mono(a: nat, b: nat)
    requires a <= b
    ensures Pow2(a) <= Pow2(b)
  {
    if a < b {
      Pow2Mono(a, b - 1);
    }
  }

  lemma {:induction false} BitsBound(bits: seq<int>)
    requires AreBits(bits)
    ensures 0 <= BitsToInt(bits) < Pow2(|bits|)
  {
    if bits != [] {
      BitsBound(bits[1..]);
    }
  }

  lemma {:induction false} BitsRoundTrip(x: nat, n: nat)
    requires x < Pow2(n)
    ensures BitsToInt(IntToBits(x, n)) == x
  {
    if n > 0 {
      BitsRoundTrip(x / 2, n - 1);
      assert IntToBits(x, n)[1..] == IntToBits(x / 2, n - 1);
    }
  }

  /** A genuine bit string is below 2^n exactly when every bit from n on is zero. */
  lemma {:induction false} HighBitsZero(bits: seq<int>, n: nat)
    requires AreBits(bits)
    ensures BitsToInt(bits) < Pow2(n) <==> forall i :: n <= i < |bits| ==> bits[i] == 0
  {
    if bits == [] {
    } else if n == 0 {
      BitsBound(bits[1..]);
      HighBitsZero(bits[1..], 0);
      if BitsToInt(bits) < 1 {
        forall i | 0 <= i < |bits| ensures bits[i] == 0 {
          if i > 0 {
            assert bits[i] == bits[1..][i - 1];
          }
        }
      }
    } else {
      var rest := bits[1..];
      HighBitsZero(rest, n - 1);
      assert forall i :: n - 1 <= i < |rest| ==> rest[i] == bits[i + 1];
      assert forall i :: n <= i < |bits| ==> bits[i] == rest[i - 1];
    }
  }
}
