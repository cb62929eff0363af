/** Powers of tau.  A group element is its exponent, so the generators are 1, the identity
    is 0, scalar multiplication is field multiplication and a pairing is a product. */
module Ceremony {
  import opened PrimeField

  datatype PowersOfTau = PowersOfTau(
    tauG1: seq<int>, tauG2: seq<int>, alphaTauG1: seq<int>, betaTauG1: seq<int>, betaG2: int)

  datatype ContributionProof = ContributionProof(tau: (int, int), alpha: (int, int), beta: (int, int))

  /** The random draws of one contributor: three factors and three proof scalars. */
  datatype Draw = Draw(tau: int, alpha: int, beta: int, s1: int, s2: int, s3: int)

  /** What a checking function does: return a boolean, or index past a vector's end. */
  datatype Verdict = Accepted | Rejected | Panicked

  function Decide(ok: bool): Verdict {
    if ok then Accepted else Rejected
  }

  function Pairing(r: Modulus, a: int, b: int): int {
    Mul(r, a, b)
  }

  ghost predicate SrsInField(r: Modulus, srs: PowersOfTau) {
    AllInField(r, srs.tauG1) && AllInField(r, srs.tauG2)
    && AllInField(r, srs.alphaTauG1) && AllInField(r, srs.betaTauG1) && InField(r, srs.betaG2)
  }

  ghost predicate ProofInField(r: Modulus, p: ContributionProof) {
    InField(r, p.tau.0) && InField(r, p.tau.1) && InField(r, p.alpha.0) && InField(r, p.alpha.1)
    && InField(r, p.beta.0) && InField(r, p.beta.1)
  }

  // ----------------------------------------------------------------- power series

  /** [c, c·s, c·s^2, ...], `n` entries. */
  function Series(r: Modulus, s: int, c: int, n: nat): (xs: seq<int>)
    ensures |xs| == n && AllInField(r, xs)
  {
    seq(n, i requires 0 <= i => Mul(r, c, Pow(r, s, i)))
  }

  /** Entry `i` multiplied by coeff·base^i. */
  function Scaled(r: Modulus, before: seq<int>, base: int, coeff: int): (xs: seq<int>)
    ensures |xs| == |before| && AllInField(r, xs)
  {
    seq(|before|, i requires 0 <= i < |before| => Mul(r, Mul(r, coeff, Pow(r, base, i)), before[i]))
  }

  method PowersTimesPoint(r: Modulus, s: int, n: nat) returns (result: seq<int>)
    ensures result == Series(r, s, 1, n)
  {
    result := [];
    var pow := 1;
    for i := 0 to n
      invariant pow == Pow(r, s, i)
      invariant result == Series(r, s, 1, i)
    {
      result := result + [Mul(r, 1, pow)];
      MulComm(r, pow, s);
      pow := Mul(r, pow, s);
    }
  }

  method PowersTimesPointWithCoeff(r: Modulus, s: int, coeff: int, n: nat) returns (result: seq<int>)
    requires InField(r, coeff)
    ensures result == Series(r, s, coeff, n)
  {
    result := [];
    var pow := 1;
    for i := 0 to n
      invariant pow == Pow(r, s, i)
      invariant result == Series(r, s, coeff, i)
    {
      MulOne(r, Mul(r, coeff, pow));
      result := result + [Mul(r, 1, Mul(r, coeff, pow))];
      MulComm(r, pow, s);
      pow := Mul(r, pow, s);
    }
  }

  method UpdatePowers(r: Modulus, before: seq<int>, base: int, coeff: int) returns (result: seq<int>)
    ensures result == Scaled(r, before, base, coeff)
  {
    result := [];
    var pow := 1;
    for i := 0 to |before|
      invariant pow == Pow(r, base, i)
      invariant result == Scaled(r, before[..i], base, coeff)
    {
      var factor := Mul(r, coeff, pow);
      MulComm(r, factor, before[i]);
      result := result + [Mul(r, before[i], factor)];
      MulComm(r, pow, base);
      pow := Mul(r, pow, base);
    }
    assert before[..|before|] == before;
  }

  // -------------------------------------------------------- contributing

  function ProofOf(r: Modulus, d: Draw): ContributionProof {
    ContributionProof((d.s1, Mul(r, d.tau, d.s1)), (d.s2, Mul(r, d.alpha, d.s2)), (d.s3, Mul(r, d.beta, d.s3)))
  }

  function Initial(r: Modulus, degree: nat, d: Draw): PowersOfTau
    requires degree >= 1
  {
    PowersOfTau(Series(r, d.tau, 1, 2 * degree - 1), Series(r, d.tau, 1, degree),
                Series(r, d.tau, d.alpha, degree), Series(r, d.tau, d.beta, degree), Mul(r, 1, d.beta))
  }

  function Contributed(r: Modulus, srs: PowersOfTau, d: Draw): PowersOfTau {
    PowersOfTau(Scaled(r, srs.tauG1, d.tau, 1), Scaled(r, srs.tauG2, d.tau, 1),
                Scaled(r, srs.alphaTauG1, d.tau, d.alpha), Scaled(r, srs.betaTauG1, d.tau, d.beta),
                Mul(r, srs.betaG2, d.beta))
  }

  ghost predicate DrawInField(r: Modulus, d: Draw) {
    InField(r, d.tau) && InField(r, d.alpha) && InField(r, d.beta)
    && InField(r, d.s1) && InField(r, d.s2) && InField(r, d.s3)
  }

  predicate NonZeroDraw(d: Draw) {
    d.tau != 0 && d.alpha != 0 && d.beta != 0 && d.s1 != 0 && d.s2 != 0 && d.s3 != 0
  }

  /** A degree of zero would underflow the series length. */
  method Initialize(r: Modulus, degree: nat, d: Draw) returns (srs: PowersOfTau, proof: ContributionProof)
    requires degree >= 1 && DrawInField(r, d)
    ensures srs == Initial(r, degree, d) && proof == ProofOf(r, d)
  {
    var tauG1 := PowersTimesPoint(r, d.tau, 2 * degree - 1);
    var tauG2 := PowersTimesPoint(r, d.tau, degree);
    var alphaTauG1 := PowersTimesPointWithCoeff(r, d.tau, d.alpha, degree);
    var betaTauG1 := PowersTimesPointWithCoeff(r, d.tau, d.beta, degree);
    srs := PowersOfTau(tauG1, tauG2, alphaTauG1, betaTauG1, Mul(r, 1, d.beta));
    proof := ProofOf(r, d);
  }

  method Contribute(r: Modulus, srs: PowersOfTau, d: Draw) returns (updated: PowersOfTau, proof: ContributionProof)
    ensures updated == Contributed(r, srs, d) && proof == ProofOf(r, d)
  {
    var tauG1 := UpdatePowers(r, srs.tauG1, d.tau, 1);
    var tauG2 := UpdatePowers(r, srs.tauG2, d.tau, 1);
    var alphaTauG1 := UpdatePowers(r, srs.alphaTauG1, d.tau, d.alpha);
    var betaTauG1 := UpdatePowers(r, srs.betaTauG1, d.tau, d.beta);
    updated := PowersOfTau(tauG1, tauG2, alphaTauG1, betaTauG1, Mul(r, srs.betaG2, d.beta));
    proof := ProofOf(r, d);
  }

  // ------------------------------------------------------------------ verification

  predicate HasIdentity(p: ContributionProof) {
    p.tau.0 == 0 || p.tau.1 == 0 || p.alpha.0 == 0 || p.alpha.1 == 0 || p.beta.0 == 0 || p.beta.1 == 0
  }

  predicate TooShort(srs: PowersOfTau) {
    |srs.tauG1| < 2 || |srs.tauG2| < 2 || |srs.alphaTauG1| < 2 || |srs.betaTauG1| < 2
  }

  /** Every series has two entries. */
  ghost predicate TwoEach(srs: PowersOfTau) {
    |srs.tauG1| >= 2 && |srs.tauG2| >= 2 && |srs.alphaTauG1| >= 2 && |srs.betaTauG1| >= 2
  }

  predicate Degenerate(srs: PowersOfTau)
    requires |srs.tauG1| >= 2 && |srs.tauG2| >= 2 && |srs.alphaTauG1| >= 1 && |srs.betaTauG1| >= 1
  {
    srs.tauG1[1] == 0 || srs.tauG2[1] == 0 || srs.alphaTauG1[0] == 0 || srs.betaTauG1[0] == 0 || srs.betaG2 == 0
  }

  function VerifyContribution(r: Modulus, before: PowersOfTau, after: PowersOfTau, p: ContributionProof): Verdict {
    if HasIdentity(p) || TooShort(after) || Degenerate(after) then Rejected
    else if |before.tauG2| < 2 || |before.alphaTauG1| < 1 then Panicked
    else
      Decide(Pairing(r, p.tau.0, after.tauG2[1]) == Pairing(r, p.tau.1, before.tauG2[1])
             && Pairing(r, after.alphaTauG1[0], p.alpha.0) == Pairing(r, before.alphaTauG1[0], p.alpha.1)
             && Pairing(r, p.beta.0, after.betaG2) == Pairing(r, p.beta.1, before.betaG2)
             && Pairing(r, after.tauG1[1], 1) == Pairing(r, 1, after.tauG2[1])
             && Pairing(r, after.alphaTauG1[1], 1) == Pairing(r, after.alphaTauG1[0], after.tauG2[1])
             && Pairing(r, after.betaTauG1[1], 1) == Pairing(r, after.betaTauG1[0], after.tauG2[1]))
  }

  /** Each entry times tau is the next, for a series in G1 checked against tau in G2. */
  predicate Steps(r: Modulus, xs: seq<int>, tau: int) {
    forall i :: 0 <= i < |xs| - 1 ==> Pairing(r, xs[i], tau) == Pairing(r, xs[i + 1], 1)
  }

  /** The same for the series in G2, checked against tau in G1. */
  predicate StepsG2(r: Modulus, xs: seq<int>, tau: int) {
    forall i :: 0 <= i < |xs| - 1 ==> Pairing(r, tau, xs[i]) == Pairing(r, 1, xs[i + 1])
  }

  function VerifyConsistency(r: Modulus, srs: PowersOfTau): Verdict {
    if |srs.tauG1| < 2 || |srs.tauG2| < 2 || srs.tauG1[1] == 0 || srs.tauG2[1] == 0 then Rejected
    else if srs.alphaTauG1 == [] then Panicked
    else if srs.alphaTauG1[0] == 0 then Rejected
    else if srs.betaTauG1 == [] then Panicked
    else
      Decide(srs.betaTauG1[0] != 0 && srs.betaG2 != 0
             && Steps(r, srs.tauG1, srs.tauG2[1]) && StepsG2(r, srs.tauG2, srs.tauG1[1])
             && Steps(r, srs.alphaTauG1, srs.tauG2[1]) && Steps(r, srs.betaTauG1, srs.tauG2[1])
             && Pairing(r, srs.tauG1[1], 1) == Pairing(r, 1, srs.tauG2[1])
             && Pairing(r, srs.betaTauG1[0], 1) == Pairing(r, 1, srs.betaG2))
  }

  method CheckSteps(r: Modulus, xs: seq<int>, tau: int) returns (ok: bool)
    requires xs != []
    ensures ok == Steps(r, xs, tau)
  {
    for i := 0 to |xs| - 1
      invariant forall k :: 0 <= k < i ==> Pairing(r, xs[k], tau) == Pairing(r, xs[k + 1], 1)
    {
      if Pairing(r, xs[i], tau) != Pairing(r, xs[i + 1], 1) {
        return false;
      }
    }
    ok := true;
  }

  method CheckConsistency(r: Modulus, srs: PowersOfTau) returns (verdict: Verdict)
    ensures verdict == VerifyConsistency(r, srs)
  {
    if |srs.tauG1| < 2 || |srs.tauG2| < 2 || srs.tauG1[1] == 0 || srs.tauG2[1] == 0 {
      return Rejected;
    }
    if srs.alphaTauG1 == [] {
      return Panicked;
    }
    if srs.alphaTauG1[0] == 0 {
      return Rejected;
    }
    if srs.betaTauG1 == [] {
      return Panicked;
    }
    if srs.betaTauG1[0] == 0 || srs.betaG2 == 0 {
      return Rejected;
    }
    var ok := CheckSteps(r, srs.tauG1, srs.tauG2[1]);
    if !ok {
      return Rejected;
    }
    for i := 0 to |srs.tauG2| - 1
      invariant forall k :: 0 <= k < i ==> Pairing(r, srs.tauG1[1], srs.tauG2[k]) == Pairing(r, 1, srs.tauG2[k + 1])
    {
      if Pairing(r, srs.tauG1[1], srs.tauG2[i]) != Pairing(r, 1, srs.tauG2[i + 1]) {
        return Rejected;
      }
    }
    ok := CheckSteps(r, srs.alphaTauG1, srs.tauG2[1]);
    if !ok {
      return Rejected;
    }
    ok := CheckSteps(r, srs.betaTauG1, srs.tauG2[1]);
    if !ok {
      return Rejected;
    }
    verdict := Decide(Pairing(r, srs.tauG1[1], 1) == Pairing(r, 1, srs.tauG2[1])
                      && Pairing(r, srs.betaTauG1[0], 1) == Pairing(r, 1, srs.betaG2));
  }

  function VerifyInitial(r: Modulus, srs: PowersOfTau, p: ContributionProof): Verdict {
    if HasIdentity(p) || TooShort(srs) || Degenerate(srs) then Rejected
    else
      Decide(Pairing(r, p.tau.0, srs.tauG2[1]) == Pairing(r, p.tau.1, 1)
             && Pairing(r, srs.alphaTauG1[0], p.alpha.0) == Pairing(r, 1, p.alpha.1)
             && Pairing(r, p.beta.0, srs.betaG2) == Pairing(r, p.beta.1, 1)
             && VerifyConsistency(r, srs) == Accepted)
  }

  // ------------------------------------------- what consistency means

  /** The string of tau, alpha and beta, none of them zero. */
  ghost predicate Exact(r: Modulus, srs: PowersOfTau, tau: int, alpha: int, beta: int) {
    InField(r, tau) && InField(r, alpha) && InField(r, beta) && tau != 0 && alpha != 0 && beta != 0
    && srs.tauG1 == Series(r, tau, 1, |srs.tauG1|)
    && srs.tauG2 == Series(r, tau, 1, |srs.tauG2|)
    && srs.alphaTauG1 == Series(r, tau, alpha, |srs.alphaTauG1|)
    && srs.betaTauG1 == Series(r, tau, beta, |srs.betaTauG1|)
    && srs.betaG2 == beta
  }

  /** A stepping series is determined by its first entry. */
  lemma {:induction false} StepsAreSeries(r: Modulus, xs: seq<int>, tau: int, c: int)
    requires AllInField(r, xs) && xs != [] && xs[0] == c
    ensures Steps(r, xs, tau) <==> xs == Series(r, tau, c, |xs|)
  {
    MulOne(r, c);
    var n := |xs| - 1;
    if n > 0 {
      var init := xs[..n];
      StepsAreSeries(r, init, tau, c);
      NextPower(r, tau, c, n);
      MulOne(r, xs[n]);
      assert xs == init + [xs[n]];
      assert Series(r, tau, c, n + 1)[..n] == Series(r, tau, c, n);
      assert Series(r, tau, c, n + 1)[n] == Mul(r, Series(r, tau, c, n)[n - 1], tau);
      if Steps(r, xs, tau) {
        assert Pairing(r, xs[n - 1], tau) == Pairing(r, xs[n], 1);
      }
      if xs == Series(r, tau, c, |xs|) {
        assert init == Series(r, tau, c, n);
        forall i | 0 <= i < n ensures Pairing(r, xs[i], tau) == Pairing(r, xs[i + 1], 1) {
          if i < n - 1 {
            assert Pairing(r, init[i], tau) == Pairing(r, init[i + 1], 1);
          }
        }
      }
    }
  }

  lemma NextPower(r: Modulus, tau: int, c: int, n: nat)
    requires n >= 1
    ensures Mul(r, c, Pow(r, tau, n)) == Mul(r, Mul(r, c, Pow(r, tau, n - 1)), tau)
  {
    MulComm(r, tau, Pow(r, tau, n - 1));
    MulAssoc(r, c, Pow(r, tau, n - 1), tau);
  }

  lemma StepsG2AreSteps(r: Modulus, xs: seq<int>, tau: int)
    ensures StepsG2(r, xs, tau) <==> Steps(r, xs, tau)
  {
    forall i | 0 <= i < |xs| ensures Pairing(r, xs[i], tau) == Pairing(r, tau, xs[i]) {
      MulComm(r, xs[i], tau);
    }
    forall i | 0 <= i < |xs| ensures Pairing(r, xs[i], 1) == Pairing(r, 1, xs[i]) {
      MulComm(r, xs[i], 1);
    }
  }

  /** In a series that steps by its own second entry, the first entry is the generator. */
  lemma FirstIsGenerator(r: Modulus, xs: seq<int>)
    requires IsPrime(r) && AllInField(r, xs) && |xs| >= 2 && xs[1] != 0
    requires Steps(r, xs, xs[1])
    ensures xs[0] == 1
  {
    assert Pairing(r, xs[0], xs[1]) == Pairing(r, xs[1], 1);
    MulComm(r, xs[1], 1);
    MulCancel(r, xs[0], 1, xs[1]);
  }

  /** The consistency check accepts exactly the genuine strings.  That entry 0 of both tau
      series is the generator is not checked; it follows. */
  lemma ConsistencyMeans(r: Modulus, srs: PowersOfTau)
    requires IsPrime(r) && SrsInField(r, srs)
    requires srs.alphaTauG1 != [] && srs.betaTauG1 != []
    ensures VerifyConsistency(r, srs) == Accepted <==>
      |srs.tauG1| >= 2 && |srs.tauG2| >= 2 && Exact(r, srs, srs.tauG2[1], srs.alphaTauG1[0], srs.betaG2)
    ensures VerifyConsistency(r, srs) != Panicked
  {
    if |srs.tauG1| >= 2 && |srs.tauG2| >= 2 {
      var tau, alpha, beta := srs.tauG2[1], srs.alphaTauG1[0], srs.betaG2;
      MulOne(r, srs.tauG1[1]);
      MulOne(r, tau);
      MulOne(r, srs.betaTauG1[0]);
      MulOne(r, beta);
      StepsG2AreSteps(r, srs.tauG2, srs.tauG1[1]);
      if VerifyConsistency(r, srs) == Accepted {
        FirstIsGenerator(r, srs.tauG1);
        FirstIsGenerator(r, srs.tauG2);
        StepsAreSeries(r, srs.tauG1, tau, 1);
        StepsAreSeries(r, srs.tauG2, tau, 1);
        StepsAreSeries(r, srs.alphaTauG1, tau, alpha);
        StepsAreSeries(r, srs.betaTauG1, tau, beta);
      }
      if Exact(r, srs, tau, alpha, beta) {
        ExactEntries(r, srs, tau, alpha, beta);
        StepsAreSeries(r, srs.tauG1, tau, 1);
        StepsAreSeries(r, srs.tauG2, tau, 1);
        StepsAreSeries(r, srs.alphaTauG1, tau, alpha);
        StepsAreSeries(r, srs.betaTauG1, tau, beta);
      }
    }
  }

  /** The secrets are read off the string, so they are unique. */
  lemma ExactEntries(r: Modulus, srs: PowersOfTau, tau: int, alpha: int, beta: int)
    requires Exact(r, srs, tau, alpha, beta)
    ensures |srs.tauG1| >= 1 ==> srs.tauG1[0] == 1
    ensures |srs.tauG2| >= 1 ==> srs.tauG2[0] == 1
    ensures |srs.tauG1| >= 2 ==> srs.tauG1[1] == tau
    ensures |srs.tauG2| >= 2 ==> srs.tauG2[1] == tau
    ensures srs.alphaTauG1 != [] ==> srs.alphaTauG1[0] == alpha
    ensures srs.betaTauG1 != [] ==> srs.betaTauG1[0] == beta
    ensures srs.betaG2 == beta
    ensures |srs.alphaTauG1| >= 2 ==> srs.alphaTauG1[1] == Mul(r, alpha, tau)
    ensures |srs.betaTauG1| >= 2 ==> srs.betaTauG1[1] == Mul(r, beta, tau)
    ensures SrsInField(r, srs)
  {
    assert Pow(r, tau, 1) == Mul(r, tau, 1);
    MulOne(r, tau);
    MulOne(r, 1);
    MulOne(r, alpha);
    MulOne(r, beta);
  }

  /** Existential form: some secrets explain the string exactly when the check accepts. */
  lemma ConsistentIffSecrets(r: Modulus, srs: PowersOfTau)
    requires IsPrime(r) && SrsInField(r, srs)
    requires srs.alphaTauG1 != [] && srs.betaTauG1 != []
    ensures VerifyConsistency(r, srs) == Accepted <==>
      |srs.tauG1| >= 2 && |srs.tauG2| >= 2
      && exists tau, alpha, beta :: Exact(r, srs, tau, alpha, beta)
  {
    ConsistencyMeans(r, srs);
    if |srs.tauG1| >= 2 && |srs.tauG2| >= 2 {
      forall tau, alpha, beta | Exact(r, srs, tau, alpha, beta)
        ensures Exact(r, srs, srs.tauG2[1], srs.alphaTauG1[0], srs.betaG2)
      {
        ExactEntries(r, srs, tau, alpha, beta);
      }
    }
  }

  // ------------------------------------------------------- honest contributions

  lemma ScaledSeries(r: Modulus, tau: int, c: int, delta: int, k: int, n: nat)
    ensures Scaled(r, Series(r, tau, c, n), delta, k) == Series(r, Mul(r, delta, tau), Mul(r, k, c), n)
  {
    var xs := Series(r, tau, c, n);
    forall i | 0 <= i < n
      ensures Scaled(r, xs, delta, k)[i] == Series(r, Mul(r, delta, tau), Mul(r, k, c), n)[i]
    {
      PowMul(r, delta, tau, i);
      MulSwap(r, k, Pow(r, delta, i), c, Pow(r, tau, i));
    }
  }

  /** A contribution turns the string of (tau, alpha, beta) into the string of the
      products with the three factors. */
  lemma ContributionMultiplies(r: Modulus, srs: PowersOfTau, tau: int, alpha: int, beta: int, d: Draw)
    requires IsPrime(r) && Exact(r, srs, tau, alpha, beta)
    requires DrawInField(r, d) && d.tau != 0 && d.alpha != 0 && d.beta != 0
    ensures Exact(r, Contributed(r, srs, d), Mul(r, d.tau, tau), Mul(r, d.alpha, alpha), Mul(r, d.beta, beta))
    ensures var after := Contributed(r, srs, d);
      |after.tauG1| == |srs.tauG1| && |after.tauG2| == |srs.tauG2|
      && |after.alphaTauG1| == |srs.alphaTauG1| && |after.betaTauG1| == |srs.betaTauG1|
  {
    ScaledSeries(r, tau, 1, d.tau, 1, |srs.tauG1|);
    ScaledSeries(r, tau, 1, d.tau, 1, |srs.tauG2|);
    ScaledSeries(r, tau, alpha, d.tau, d.alpha, |srs.alphaTauG1|);
    ScaledSeries(r, tau, beta, d.tau, d.beta, |srs.betaTauG1|);
    MulOne(r, 1);
    MulComm(r, beta, d.beta);
    NoZeroDivisors(r, d.tau, tau);
    NoZeroDivisors(r, d.alpha, alpha);
    NoZeroDivisors(r, d.beta, beta);
  }

  lemma InitialIsExact(r: Modulus, degree: nat, d: Draw)
    requires degree >= 1 && DrawInField(r, d) && d.tau != 0 && d.alpha != 0 && d.beta != 0
    ensures Exact(r, Initial(r, degree, d), d.tau, d.alpha, d.beta)
    ensures var srs := Initial(r, degree, d);
      |srs.tauG1| == 2 * degree - 1 && |srs.tauG2| == |srs.alphaTauG1| == |srs.betaTauG1| == degree
  {
    MulOne(r, d.beta);
  }

  lemma ScaledTwice(r: Modulus, xs: seq<int>, b1: int, c1: int, b2: int, c2: int)
    ensures Scaled(r, Scaled(r, xs, b1, c1), b2, c2) == Scaled(r, xs, Mul(r, b2, b1), Mul(r, c2, c1))
  {
    forall i | 0 <= i < |xs|
      ensures Scaled(r, Scaled(r, xs, b1, c1), b2, c2)[i] == Scaled(r, xs, Mul(r, b2, b1), Mul(r, c2, c1))[i]
    {
      var f1, f2 := Mul(r, c1, Pow(r, b1, i)), Mul(r, c2, Pow(r, b2, i));
      MulAssoc(r, f2, f1, xs[i]);
      MulSwap(r, c2, Pow(r, b2, i), c1, Pow(r, b1, i));
      PowMul(r, b2, b1, i);
    }
  }

  /** Two contributions give the same string in either order, whatever the string. */
  lemma ContributionsCommute(r: Modulus, srs: PowersOfTau, d: Draw, e: Draw)
    ensures Contributed(r, Contributed(r, srs, d), e) == Contributed(r, Contributed(r, srs, e), d)
  {
    ScaledTwice(r, srs.tauG1, d.tau, 1, e.tau, 1);
    ScaledTwice(r, srs.tauG1, e.tau, 1, d.tau, 1);
    ScaledTwice(r, srs.tauG2, d.tau, 1, e.tau, 1);
    ScaledTwice(r, srs.tauG2, e.tau, 1, d.tau, 1);
    ScaledTwice(r, srs.alphaTauG1, d.tau, d.alpha, e.tau, e.alpha);
    ScaledTwice(r, srs.alphaTauG1, e.tau, e.alpha, d.tau, d.alpha);
    ScaledTwice(r, srs.betaTauG1, d.tau, d.beta, e.tau, e.beta);
    ScaledTwice(r, srs.betaTauG1, e.tau, e.beta, d.tau, d.beta);
    MulComm(r, d.tau, e.tau);
    MulComm(r, d.alpha, e.alpha);
    MulComm(r, d.beta, e.beta);
    MulAssoc(r, srs.betaG2, d.beta, e.beta);
    MulAssoc(r, srs.betaG2, e.beta, d.beta);
  }

  /** s·(δ·x) = (δ·s)·x: the ratio check of an honest proof. */
  lemma RatioHolds(r: Modulus, s: int, delta: int, x: int)
    ensures Mul(r, s, Mul(r, delta, x)) == Mul(r, Mul(r, delta, s), x)
    ensures Mul(r, Mul(r, delta, x), s) == Mul(r, x, Mul(r, delta, s))
  {
    MulAssoc(r, s, delta, x);
    MulComm(r, s, delta);
    MulComm(r, Mul(r, delta, x), s);
    MulComm(r, x, Mul(r, delta, s));
  }

  lemma ProofHasIdentity(r: Modulus, d: Draw)
    requires IsPrime(r) && DrawInField(r, d)
    ensures HasIdentity(ProofOf(r, d)) <==> !NonZeroDraw(d)
  {
    NoZeroDivisors(r, d.tau, d.s1);
    NoZeroDivisors(r, d.alpha, d.s2);
    NoZeroDivisors(r, d.beta, d.s3);
  }

  lemma HonestInitial(r: Modulus, degree: nat, d: Draw)
    requires IsPrime(r) && degree >= 1 && DrawInField(r, d)
    ensures VerifyInitial(r, Initial(r, degree, d), ProofOf(r, d)) == Accepted <==> NonZeroDraw(d) && degree >= 2
  {
    ProofHasIdentity(r, d);
    if NonZeroDraw(d) && degree >= 2 {
      var srs := Initial(r, degree, d);
      InitialIsExact(r, degree, d);
      ExactEntries(r, srs, d.tau, d.alpha, d.beta);
      ConsistencyMeans(r, srs);
      MulComm(r, d.s1, d.tau);
      MulOne(r, Mul(r, d.tau, d.s1));
      MulOne(r, Mul(r, d.alpha, d.s2));
      MulComm(r, d.s3, d.beta);
      MulOne(r, Mul(r, d.beta, d.s3));
    }
  }

  // -------------------------------------------- what one accepted step says

  /** The secrets a transition check can see: entry 1 in G2, the two leading entries. */
  datatype Secrets = Secrets(tau: int, alpha: int, beta: int)

  /** The secrets multiplied by the factors of a draw. */
  function Times(r: Modulus, d: Draw, s: Secrets): Secrets {
    Secrets(Mul(r, d.tau, s.tau), Mul(r, d.alpha, s.alpha), Mul(r, d.beta, s.beta))
  }

  function Visible(srs: PowersOfTau): Secrets {
    Secrets(if |srs.tauG2| >= 2 then srs.tauG2[1] else 0,
            if srs.alphaTauG1 != [] then srs.alphaTauG1[0] else 0, srs.betaG2)
  }

  /** The ratios new : old that a proof states, as cross-products. */
  ghost predicate Ratios(r: Modulus, p: ContributionProof, from: Secrets, to: Secrets) {
    p.tau.0 != 0 && p.tau.1 != 0 && p.alpha.0 != 0 && p.alpha.1 != 0 && p.beta.0 != 0 && p.beta.1 != 0
    && Mul(r, p.tau.0, to.tau) == Mul(r, p.tau.1, from.tau)
    && Mul(r, p.alpha.0, to.alpha) == Mul(r, p.alpha.1, from.alpha)
    && Mul(r, p.beta.0, to.beta) == Mul(r, p.beta.1, from.beta)
  }

  lemma AcceptedRatios(r: Modulus, before: PowersOfTau, after: PowersOfTau, p: ContributionProof)
    requires VerifyContribution(r, before, after, p) == Accepted
    ensures Ratios(r, p, Visible(before), Visible(after))
    ensures Visible(after).tau != 0 && Visible(after).alpha != 0 && Visible(after).beta != 0
  {
    MulComm(r, after.alphaTauG1[0], p.alpha.0);
    MulComm(r, before.alphaTauG1[0], p.alpha.1);
  }

  /** The three equations between entries of the new string that a step check adds. */
  ghost predicate SecondEntries(r: Modulus, srs: PowersOfTau)
    requires TwoEach(srs)
  {
    srs.tauG1[1] == srs.tauG2[1]
    && srs.alphaTauG1[1] == Mul(r, srs.alphaTauG1[0], srs.tauG2[1])
    && srs.betaTauG1[1] == Mul(r, srs.betaTauG1[0], srs.tauG2[1])
  }

  /** Everything that an accepted step says: lengths, the ratios of the visible secrets, none
      of them zero, and the second entries of the new string. */
  lemma StepMeans(r: Modulus, before: PowersOfTau, after: PowersOfTau, p: ContributionProof)
    requires SrsInField(r, after)
    ensures VerifyContribution(r, before, after, p) == Accepted <==>
      TwoEach(after) && |before.tauG2| >= 2 && before.alphaTauG1 != []
      && Ratios(r, p, Visible(before), Visible(after))
      && after.tauG1[1] != 0 && after.tauG2[1] != 0 && after.alphaTauG1[0] != 0 && after.betaTauG1[0] != 0
      && after.betaG2 != 0 && SecondEntries(r, after)
  {
    if TwoEach(after) && |before.tauG2| >= 2 && before.alphaTauG1 != [] {
      MulComm(r, after.alphaTauG1[0], p.alpha.0);
      MulComm(r, before.alphaTauG1[0], p.alpha.1);
      MulOne(r, after.tauG1[1]);
      MulOne(r, after.tauG2[1]);
      MulOne(r, after.alphaTauG1[1]);
      MulOne(r, after.betaTauG1[1]);
    }
  }

  lemma ExactPasses(r: Modulus, srs: PowersOfTau, s: Secrets)
    requires Exact(r, srs, s.tau, s.alpha, s.beta) && TwoEach(srs)
    ensures !Degenerate(srs) && SecondEntries(r, srs)
  {
    ExactEntries(r, srs, s.tau, s.alpha, s.beta);
  }

  /** Multiplying an entry and tau by their factors multiplies the entry that follows. */
  lemma ScaledSecond(r: Modulus, xs: seq<int>, delta: int, k: int, tau: int)
    requires |xs| >= 2 && InField(r, delta) && xs[1] == Mul(r, xs[0], tau) && InField(r, xs[0]) && InField(r, k)
    ensures Scaled(r, xs, delta, k)[0] == Mul(r, k, xs[0])
    ensures Scaled(r, xs, delta, k)[1] == Mul(r, Mul(r, k, xs[0]), Mul(r, delta, tau))
  {
    MulOne(r, k);
    MulOne(r, delta);
    MulSwap(r, k, xs[0], delta, tau);
  }

  lemma HonestEntries(r: Modulus, srs: PowersOfTau, d: Draw)
    requires IsPrime(r) && SrsInField(r, srs) && DrawInField(r, d) && NonZeroDraw(d)
    requires TwoEach(srs) && !Degenerate(srs) && SecondEntries(r, srs)
    ensures var after := Contributed(r, srs, d);
      TwoEach(after) && !Degenerate(after) && SecondEntries(r, after)
      && Visible(after) == Times(r, d, Visible(srs))
  {
    var tau := srs.tauG2[1];
    ScaledSecond(r, srs.alphaTauG1, d.tau, d.alpha, tau);
    ScaledSecond(r, srs.betaTauG1, d.tau, d.beta, tau);
    MulOne(r, d.tau);
    MulOne(r, 1);
    MulComm(r, srs.betaG2, d.beta);
    NoZeroDivisors(r, d.tau, tau);
    NoZeroDivisors(r, d.alpha, srs.alphaTauG1[0]);
    NoZeroDivisors(r, d.beta, srs.betaTauG1[0]);
    NoZeroDivisors(r, d.beta, srs.betaG2);
  }

  /** An honest contribution to any string that a step check lets through, genuine or not,
      passes exactly when no draw is zero. */
  lemma HonestOnAccepted(r: Modulus, srs: PowersOfTau, d: Draw)
    requires IsPrime(r) && SrsInField(r, srs) && DrawInField(r, d)
    requires TwoEach(srs) ==> !Degenerate(srs) && SecondEntries(r, srs)
    ensures VerifyContribution(r, srs, Contributed(r, srs, d), ProofOf(r, d)) == Accepted
      <==> NonZeroDraw(d) && TwoEach(srs)
  {
    ProofHasIdentity(r, d);
    if NonZeroDraw(d) && TwoEach(srs) {
      var s := Visible(srs);
      HonestEntries(r, srs, d);
      RatioHolds(r, d.s1, d.tau, s.tau);
      RatioHolds(r, d.s2, d.alpha, s.alpha);
      RatioHolds(r, d.s3, d.beta, s.beta);
      StepMeans(r, srs, Contributed(r, srs, d), ProofOf(r, d));
    }
  }

  /** An honest contribution to a genuine string passes exactly when no draw is zero and no
      series has fewer than two entries. */
  lemma HonestContribution(r: Modulus, srs: PowersOfTau, tau: int, alpha: int, beta: int, d: Draw)
    requires IsPrime(r) && Exact(r, srs, tau, alpha, beta) && DrawInField(r, d)
    ensures VerifyContribution(r, srs, Contributed(r, srs, d), ProofOf(r, d)) == Accepted
      <==> NonZeroDraw(d) && TwoEach(srs)
  {
    ExactEntries(r, srs, tau, alpha, beta);
    if TwoEach(srs) {
      ExactPasses(r, srs, Secrets(tau, alpha, beta));
    }
    HonestOnAccepted(r, srs, d);
  }

  // ------------------------------------------------------------------- panics

  /** The consistency check indexes an empty alpha or beta series exactly here. */
  lemma ConsistencyPanics(r: Modulus, srs: PowersOfTau)
    ensures VerifyConsistency(r, srs) == Panicked <==>
      |srs.tauG1| >= 2 && |srs.tauG2| >= 2 && srs.tauG1[1] != 0 && srs.tauG2[1] != 0
      && (srs.alphaTauG1 == [] || (srs.alphaTauG1[0] != 0 && srs.betaTauG1 == []))
  {
  }

  /** The step check indexes past the end of a short old string exactly when everything it
      looks at before has passed.  The check of a first contribution never does. */
  lemma StepPanics(r: Modulus, before: PowersOfTau, after: PowersOfTau, p: ContributionProof)
    ensures VerifyContribution(r, before, after, p) == Panicked <==>
      (|before.tauG2| < 2 || before.alphaTauG1 == [])
      && !HasIdentity(p) && TwoEach(after) && !Degenerate(after)
    ensures VerifyInitial(r, after, p) != Panicked
  {
  }

  /** Inputs on which they do, for every field. */
  lemma ShortStringsPanic(r: Modulus)
    ensures VerifyConsistency(r, PowersOfTau([1, 1], [1, 1], [], [], 1)) == Panicked
    ensures VerifyContribution(r, PowersOfTau([], [], [], [], 0), PowersOfTau([1, 1], [1, 1], [1, 1], [1, 1], 1),
                               ContributionProof((1, 1), (1, 1), (1, 1))) == Panicked
  {
  }

  /** The step check and the consistency check together accept exactly the genuine strings
      whose secrets stand in the proof's ratios to those before. */
  lemma StepAndStringMean(r: Modulus, before: PowersOfTau, after: PowersOfTau, p: ContributionProof)
    requires IsPrime(r) && SrsInField(r, after)
    requires |before.tauG2| >= 2 && before.alphaTauG1 != []
    ensures VerifyContribution(r, before, after, p) == Accepted && VerifyConsistency(r, after) == Accepted <==>
      TwoEach(after) && Exact(r, after, Visible(after).tau, Visible(after).alpha, Visible(after).beta)
      && Ratios(r, p, Visible(before), Visible(after))
  {
    StepMeans(r, before, after, p);
    if TwoEach(after) {
      ConsistencyMeans(r, after);
      if Exact(r, after, Visible(after).tau, Visible(after).alpha, Visible(after).beta) {
        ExactPasses(r, after, Visible(after));
      }
    }
  }

  /** The check of the first contribution accepts exactly the genuine strings whose secrets
      stand in the proof's ratios to one. */
  lemma InitialMeans(r: Modulus, srs: PowersOfTau, p: ContributionProof)
    requires IsPrime(r) && SrsInField(r, srs)
    ensures VerifyInitial(r, srs, p) == Accepted <==>
      TwoEach(srs) && Exact(r, srs, Visible(srs).tau, Visible(srs).alpha, Visible(srs).beta)
      && Ratios(r, p, Secrets(1, 1, 1), Visible(srs))
  {
    if TwoEach(srs) {
      MulComm(r, srs.alphaTauG1[0], p.alpha.0);
      MulComm(r, 1, p.alpha.1);
      ConsistencyMeans(r, srs);
      if Exact(r, srs, Visible(srs).tau, Visible(srs).alpha, Visible(srs).beta) {
        ExactPasses(r, srs, Visible(srs));
      }
    }
  }

  /** An honest contribution whose beta series is rescaled afterwards. */
  function Rescaled(r: Modulus, srs: PowersOfTau, k: int): PowersOfTau {
    srs.(betaTauG1 := Scaled(r, srs.betaTauG1, 1, k))
  }

  lemma {:induction false} PowOne(r: Modulus, n: nat)
    ensures Pow(r, 1, n) == 1
  {
    if n > 0 {
      PowOne(r, n - 1);
      MulOne(r, 1);
    }
  }

  /** The step check alone does not show that `after` is a genuine string, let alone derived
      from `before`: it never compares the beta series with beta in G2, and looks at two
      entries of each series.  With the consistency check it is genuine, in the proof's ratios;
      for it to be a contribution to `before` the lengths must be kept as well. */
  lemma StepCheckIsLocal(r: Modulus, srs: PowersOfTau, tau: int, alpha: int, beta: int, d: Draw, k: int)
    requires IsPrime(r) && Exact(r, srs, tau, alpha, beta) && TwoEach(srs)
    requires DrawInField(r, d) && NonZeroDraw(d) && InField(r, k) && k != 0 && k != 1
    ensures var after := Rescaled(r, Contributed(r, srs, d), k);
      VerifyContribution(r, srs, after, ProofOf(r, d)) == Accepted
      && VerifyConsistency(r, after) == Rejected
  {
    HonestContribution(r, srs, tau, alpha, beta, d);
    ContributionMultiplies(r, srs, tau, alpha, beta, d);
    var honest := Contributed(r, srs, d);
    var after := Rescaled(r, honest, k);
    var tau', beta' := Mul(r, d.tau, tau), Mul(r, d.beta, beta);
    ExactEntries(r, honest, tau', Mul(r, d.alpha, alpha), beta');
    PowOne(r, 1);
    MulOne(r, k);
    assert after.betaTauG1[0] == Mul(r, k, beta');
    assert after.betaTauG1[1] == Mul(r, k, Mul(r, beta', tau'));
    MulAssoc(r, k, beta', tau');
    MulOne(r, after.betaTauG1[1]);
    NoZeroDivisors(r, k, beta');
    MulOne(r, after.betaTauG1[0]);
    MulOne(r, beta');
    if after.betaTauG1[0] == beta' {
      MulCancel(r, k, 1, beta');
    }
  }

  // ------------------------------------------------------------------- products

  function Product(r: Modulus, xs: seq<int>): (p: int)
    ensures InField(r, p)
  {
    if xs == [] then 1 else Mul(r, Product(r, xs[..|xs| - 1]), xs[|xs| - 1])
  }

  /** Ratios in cross-product form telescope over any number of steps. */
  lemma {:induction false} Telescope(r: Modulus, p: seq<int>, q: seq<int>, v: seq<int>)
    requires |p| == |q| && |v| == |p| + 1
    requires AllInField(r, v)
    requires forall i :: 0 <= i < |p| ==> Mul(r, p[i], v[i + 1]) == Mul(r, q[i], v[i])
    ensures Mul(r, Product(r, p), v[|p|]) == Mul(r, Product(r, q), v[0])
  {
    if p != [] {
      var n := |p| - 1;
      var P, Q := Product(r, p[..n]), Product(r, q[..n]);
      Telescope(r, p[..n], q[..n], v[..n + 1]);
      assert Mul(r, p[n], v[n + 1]) == Mul(r, q[n], v[n]);
      calc {
        Mul(r, Mul(r, P, p[n]), v[n + 1]);
        { MulAssoc(r, P, p[n], v[n + 1]); }
        Mul(r, P, Mul(r, q[n], v[n]));
        { MulComm(r, q[n], v[n]); MulAssoc(r, P, v[n], q[n]); }
        Mul(r, Mul(r, P, v[n]), q[n]);
        Mul(r, Mul(r, Q, v[0]), q[n]);
        { MulAssoc(r, Q, v[0], q[n]); MulComm(r, v[0], q[n]); MulAssoc(r, Q, q[n], v[0]); }
        Mul(r, Mul(r, Q, q[n]), v[0]);
      }
    }
  }

  lemma {:induction false} ProductNonZero(r: Modulus, xs: seq<int>)
    requires IsPrime(r) && AllInField(r, xs)
    ensures Product(r, xs) != 0 <==> forall i :: 0 <= i < |xs| ==> xs[i] != 0
  {
    if xs != [] {
      var n := |xs| - 1;
      ProductNonZero(r, xs[..n]);
      NoZeroDivisors(r, Product(r, xs[..n]), xs[n]);
    }
  }
}
