/** Arithmetic in the scalar field: integers `0 <= x < r`, every operation reduced
    modulo `r`.  The modulus is a parameter, so every result holds for each prime
    that meets the stated bounds, the BLS12-381 scalar order among them. */
module PrimeField {

  type Modulus = r: int | 2 <= r witness 2

  predicate InField(r: Modulus, x: int) {
    0 <= x < r
  }

  ghost predicate AllInField(r: Modulus, xs: seq<int>) {
    forall i :: 0 <= i < |xs| ==> InField(r, xs[i])
  }

  ghost predicate IsPrime(r: Modulus) {
    forall d :: 2 <= d < r ==> r % d != 0
  }

  function Reduce(r: Modulus, x: int): (y: int)
    ensures InField(r, y)
  {
    x % r
  }

  function Add(r: Modulus, a: int, b: int): (c: int)
    ensures InField(r, c)
  {
    Reduce(r, a + b)
  }

  function Sub(r: Modulus, a: int, b: int): (c: int)
    ensures InField(r, c)
  {
    Reduce(r, a - b)
  }

  function Mul(r: Modulus, a: int, b: int): (c: int)
    ensures InField(r, c)
  {
    Reduce(r, a * b)
  }

  function Pow(r: Modulus, x: int, n: nat): (p: int)
    ensures InField(r, p)
  {
    if n == 0 then 1 else Mul(r, x, Pow(r, x, n - 1))
  }

  // ---------------------------------------------------------------- reduction

  lemma ReduceUnique(r: Modulus, x: int, q: int, y: int)
    requires x == q * r + y
    requires InField(r, y)
    ensures Reduce(r, x) == y
  {
    var d := x / r - q;
    assert d * r == y - x % r by {
      assert x == (x / r) * r + x % r;
      assert d * r == (x / r) * r - q * r;
    }
    SmallMultiple(d, r);
  }

  /** The only multiple of `m` strictly between -m and m is zero. */
  lemma SmallMultiple(d: int, m: int)
    ensures -m < d * m < m ==> d == 0
  {
    if m >= 1 {
      if d >= 1 {
        MulMono(1, d, m);
      } else if d <= -1 {
        MulMono(d, -1, m);
      }
    }
  }

  lemma MulMono(a: int, b: int, c: int)
    requires a <= b && 0 <= c
    ensures a * c <= b * c
  {
  }

  lemma ReduceShift(r: Modulus, x: int, k: int)
    ensures Reduce(r, x + k * r) == Reduce(r, x)
  {
    var y := Reduce(r, x);
    assert x == (x / r) * r + y;
    assert x + k * r == (x / r + k) * r + y;
    ReduceUnique(r, x + k * r, x / r + k, y);
  }

  lemma ReduceId(r: Modulus, x: int)
    requires InField(r, x)
    ensures Reduce(r, x) == x
  {
    ReduceUnique(r, x, 0, x);
  }

  lemma ReduceAddLeft(r: Modulus, a: int, b: int)
    ensures Reduce(r, Reduce(r, a) + b) == Reduce(r, a + b)
  {
    assert Reduce(r, a) + b == a + b + (-(a / r)) * r by {
      assert a == (a / r) * r + Reduce(r, a);
    }
    ReduceShift(r, a + b, -(a / r));
  }

  ghost predicate Absorbs(reduce: int -> int, a: int, b: int) {
    reduce(reduce(a) + b) == reduce(a + b)
  }

  lemma ReduceAbsorbs(r: Modulus) returns (reduce: int -> int)
    ensures forall x :: reduce(x) == Reduce(r, x)
    ensures forall u, v :: Absorbs(reduce, u, v)
  {
    reduce := x => Reduce(r, x);
    forall u, v ensures Absorbs(reduce, u, v) {
      ReduceAddLeft(r, u, v);
    }
  }

  /** Inner reductions of a sum do not matter. */
  lemma ReduceSum(r: Modulus, a: int, x: int, y: int)
    ensures Add(r, Add(r, a, Reduce(r, x)), Reduce(r, y)) == Reduce(r, a + x + y)
  {
    var reduce := ReduceAbsorbs(r);
    assert Absorbs(reduce, a + reduce(x), reduce(y));
    assert Absorbs(reduce, x, a + reduce(y));
    assert Absorbs(reduce, y, a + x);
  }

  lemma ReduceDouble(r: Modulus, k: int, c: int)
    ensures Sub(r, Add(r, Reduce(r, k), Reduce(r, k)), c) == Reduce(r, 2 * k - c)
  {
    var reduce := ReduceAbsorbs(r);
    assert Absorbs(reduce, reduce(k) + reduce(k), -c);
    assert Absorbs(reduce, k, reduce(k) - c);
    assert Absorbs(reduce, k, k - c);
  }

  lemma ReduceSub(r: Modulus, a: int, b: int)
    ensures Reduce(r, Reduce(r, a) - Reduce(r, b)) == Reduce(r, a - b)
  {
    var k := b / r - a / r;
    assert Reduce(r, a) - Reduce(r, b) == a - b + k * r by {
      assert a == (a / r) * r + Reduce(r, a);
      assert b == (b / r) * r + Reduce(r, b);
      assert k * r == (b / r) * r - (a / r) * r;
    }
    ReduceShift(r, a - b, k);
  }

  lemma ReduceMulLeft(r: Modulus, a: int, b: int)
    ensures Reduce(r, Reduce(r, a) * b) == Reduce(r, a * b)
  {
    var q := a / r;
    assert Reduce(r, a) * b == a * b + (-(q * b)) * r by {
      assert Reduce(r, a) == a - q * r;
      assert (a - q * r) * b == a * b - (q * r) * b;
      assert (q * r) * b == (q * b) * r;
    }
    ReduceShift(r, a * b, -(q * b));
  }

  // ---------------------------------------------------------------- ring laws

  lemma MulComm(r: Modulus, a: int, b: int)
    ensures Mul(r, a, b) == Mul(r, b, a)
  {
    assert a * b == b * a;
  }

  lemma TimesAssoc(a: int, b: int, c: int)
    ensures (a * b) * c == (b * c) * a
  {
  }

  lemma MulAssoc(r: Modulus, a: int, b: int, c: int)
    ensures Mul(r, Mul(r, a, b), c) == Mul(r, a, Mul(r, b, c))
  {
    ReduceMulLeft(r, a * b, c);
    ReduceMulLeft(r, b * c, a);
    TimesAssoc(a, b, c);
    MulComm(r, a, Mul(r, b, c));
  }

  lemma MulOne(r: Modulus, a: int)
    requires InField(r, a)
    ensures Mul(r, a, 1) == a && Mul(r, 1, a) == a
  {
    ReduceId(r, a);
  }

  lemma MulZero(r: Modulus, a: int)
    ensures Mul(r, a, 0) == 0 && Mul(r, 0, a) == 0
  {
    ReduceId(r, 0);
  }

  /** Middle swap: (a·b)·(c·d) = (a·c)·(b·d). */
  lemma MulSwap(r: Modulus, a: int, b: int, c: int, d: int)
    ensures Mul(r, Mul(r, a, b), Mul(r, c, d)) == Mul(r, Mul(r, a, c), Mul(r, b, d))
  {
    MulAssoc(r, a, b, Mul(r, c, d));
    MulAssoc(r, b, c, d);
    MulComm(r, b, c);
    MulAssoc(r, c, b, d);
    MulAssoc(r, a, c, Mul(r, b, d));
  }

  lemma PowMul(r: Modulus, x: int, y: int, n: nat)
    ensures Pow(r, Mul(r, x, y), n) == Mul(r, Pow(r, x, n), Pow(r, y, n))
  {
    if n == 0 {
      MulOne(r, 1);
    } else {
      PowMul(r, x, y, n - 1);
      MulSwap(r, x, y, Pow(r, x, n - 1), Pow(r, y, n - 1));
    }
  }

  // ------------------------------------------------------ no zero divisors

  /** Euclid: a prime that divides a·b and not a divides b. */
  lemma {:induction false} EuclidLemma(r: Modulus, a: int, b: int)
    requires IsPrime(r)
    requires 1 <= a < r
    requires (a * b) % r == 0
    ensures b % r == 0
    decreases a
  {
    if a > 1 {
      var q, t := r / a, r % a;
      assert r == q * a + t;
      var k := (a * b) / r;
      assert a * b == k * r;
      assert t * b == (b - q * k) * r by {
        assert (r - q * a) * b == r * b - q * (a * b);
        assert q * (k * r) == (q * k) * r;
        assert r * b - (q * k) * r == (b - q * k) * r;
      }
      assert Reduce(r, t * b) == 0 by { ReduceUnique(r, t * b, b - q * k, 0); }
      EuclidLemma(r, t, b);
    }
  }

  lemma NoZeroDivisors(r: Modulus, a: int, b: int)
    requires IsPrime(r)
    requires InField(r, a) && InField(r, b)
    ensures Mul(r, a, b) == 0 <==> a == 0 || b == 0
  {
    if a == 0 || b == 0 {
      assert a * b == 0;
    } else if Mul(r, a, b) == 0 {
      EuclidLemma(r, a, b);
      ReduceId(r, b);
    }
  }

  /** Every nonzero element has an inverse. */
  lemma {:induction false} Inverse(r: Modulus, a: int) returns (x: int)
    requires IsPrime(r) && 1 <= a < r
    ensures InField(r, x) && Mul(r, a, x) == 1
    decreases a
  {
    if a == 1 {
      x := 1;
      ReduceId(r, 1);
    } else {
      var q, t := r / a, r % a;
      assert r == q * a + t;
      var y := Inverse(r, t);
      x := Reduce(r, -(q * y));
      ReduceMulLeft(r, -(q * y), a);
      MulComm(r, a, x);
      InverseStep(a, q, t, y, r);
      ReduceShift(r, t * y, -y);
    }
  }

  lemma InverseStep(a: int, q: int, t: int, y: int, r: int)
    requires r == q * a + t
    ensures -(q * y) * a == t * y + (-y) * r
  {
    assert (q * a) * y == (q * y) * a;
  }

  lemma MulCancel(r: Modulus, a: int, b: int, c: int)
    requires IsPrime(r)
    requires InField(r, a) && InField(r, b) && InField(r, c) && c != 0
    requires Mul(r, a, c) == Mul(r, b, c)
    ensures a == b
  {
    assert Sub(r, Mul(r, a, c), Mul(r, b, c)) == 0;
    ReduceSub(r, a * c, b * c);
    assert a * c - b * c == (a - b) * c;
    assert Reduce(r, (a - b) * c) == 0;
    ReduceMulLeft(r, a - b, c);
    NoZeroDivisors(r, Sub(r, a, b), c);
    SubZero(r, a, b);
  }

  lemma SubZero(r: Modulus, a: int, b: int)
    requires InField(r, a) && InField(r, b)
    ensures Sub(r, a, b) == 0 <==> a == b
  {
    if a >= b {
      ReduceId(r, a - b);
    } else {
      ReduceUnique(r, a - b, -1, a - b + r);
    }
  }

  lemma PowNonZero(r: Modulus, x: int, n: nat)
    requires IsPrime(r)
    requires InField(r, x) && x != 0
    ensures Pow(r, x, n) != 0
  {
    if n > 0 {
      PowNonZero(r, x, n - 1);
      NoZeroDivisors(r, x, Pow(r, x, n - 1));
    }
  }
}
