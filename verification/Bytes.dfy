/** Byte strings and their little-endian and big-endian values. */
module Bytes {
  import opened PrimeField

  type byte = x: int | 0 <= x < 256

  function Pow256(n: nat): (p: nat)
    ensures p >= 1
  {
    if n == 0 then 1 else 256 * Pow256(n - 1)
  }

  function LeToInt(bytes: seq<byte>): nat {
    if bytes == [] then 0 else bytes[0] + 256 * LeToInt(bytes[1..])
  }

  /** The low `n` bytes of `x`, least significant first. */
  function IntToLe(x: nat, n: nat): (bytes: seq<byte>)
    ensures |bytes| == n
  {
    if n == 0 then [] else [x % 256] + IntToLe(x / 256, n - 1)
  }

  function Reverse(bytes: seq<byte>): (rev: seq<byte>)
    ensures |rev| == |bytes|
    ensures forall i :: 0 <= i < |bytes| ==> rev[i] == bytes[|bytes| - 1 - i]
  {
    seq(|bytes|, i requires 0 <= i < |bytes| => bytes[|bytes| - 1 - i])
  }

  lemma ReverseTwice(bytes: seq<byte>)
    ensures Reverse(Reverse(bytes)) == bytes
  {
  }

  lemma {:induction false} LeBound(bytes: seq<byte>)
    ensures LeToInt(bytes) < Pow256(|bytes|)
  {
    if bytes != [] {
      LeBound(bytes[1..]);
    }
  }

  lemma {:induction false} LeRoundTrip(bytes: seq<byte>)
    ensures IntToLe(LeToInt(bytes), |bytes|) == bytes
  {
    if bytes != [] {
      LeRoundTrip(bytes[1..]);
      assert LeToInt(bytes) / 256 == LeToInt(bytes[1..]);
    }
  }

  lemma {:induction false} LeOfInt(x: nat, n: nat)
    ensures LeToInt(IntToLe(x, n)) == x % Pow256(n)
  {
    if n > 0 {
      var rest := IntToLe(x / 256, n - 1);
      LeOfInt(x / 256, n - 1);
      assert IntToLe(x, n)[1..] == rest;
      DigitMod(x, Pow256(n - 1));
    }
  }

  lemma DigitMod(x: nat, m: nat)
    requires m >= 1
    ensures x % (256 * m) == x % 256 + 256 * ((x / 256) % m)
  {
    var q := (x / 256) / m;
    var rem := x % 256 + 256 * ((x / 256) % m);
    assert x / 256 == q * m + (x / 256) % m;
    assert x == q * (256 * m) + rem by { assert 256 * (q * m) == q * (256 * m); }
    ModUnique(x, 256 * m, q, rem);
  }

  lemma ModUnique(x: nat, m: nat, q: nat, rem: nat)
    requires m >= 1 && x == q * m + rem && rem < m
    ensures x % m == rem
  {
    var d := x / m - q;
    assert d * m == rem - x % m by {
      assert x == (x / m) * m + x % m;
      assert d * m == (x / m) * m - q * m;
    }
    SmallMultiple(d, m);
  }

  /** Byte `n` weighs 256 to the power of `n`. */
  lemma {:induction false} LeSnoc(bytes: seq<byte>, b: byte)
    ensures LeToInt(bytes + [b]) == LeToInt(bytes) + b * Pow256(|bytes|)
  {
    if bytes != [] {
      assert (bytes + [b])[1..] == bytes[1..] + [b];
      LeSnoc(bytes[1..], b);
      assert 256 * (b * Pow256(|bytes| - 1)) == b * Pow256(|bytes|);
    } else {
      assert [b][1..] == [];
    }
  }

  /** Cutting the value to `k` bytes is cutting the string. */
  lemma {:induction false} LeTake(x: nat, n: nat, k: nat)
    requires k <= n
    ensures IntToLe(x, n)[..k] == IntToLe(x, k)
  {
    if k > 0 {
      LeTake(x / 256, n - 1, k - 1);
    }
  }
}
