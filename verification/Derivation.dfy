/** When an accepted step was derived from the string before it, and an accepted transcript
    from an honest run.  The checks never compare the lengths of two strings. */
module Derivation {
  import opened PrimeField
  import opened Ceremony
  import opened SrsCodec
  import opened Transcript

  // ------------------------------------------------------------- the draw of a proof

  lemma Quotient(r: Modulus, a: int, b: int) returns (x: int)
    requires IsPrime(r) && InField(r, a) && a != 0 && InField(r, b)
    ensures InField(r, x) && Mul(r, x, a) == b && (b != 0 ==> x != 0)
  {
    var y := Inverse(r, a);
    x := Mul(r, b, y);
    MulAssoc(r, b, y, a);
    MulComm(r, a, y);
    MulOne(r, b);
    MulZero(r, a);
  }

  /** Every proof without identities is the proof of a draw. */
  lemma DrawBehind(r: Modulus, p: ContributionProof) returns (d: Draw)
    requires IsPrime(r) && ProofInField(r, p) && !HasIdentity(p)
    ensures DrawInField(r, d) && NonZeroDraw(d) && ProofOf(r, d) == p
  {
    var tau := Quotient(r, p.tau.0, p.tau.1);
    var alpha := Quotient(r, p.alpha.0, p.alpha.1);
    var beta := Quotient(r, p.beta.0, p.beta.1);
    d := Draw(tau, alpha, beta, p.tau.0, p.alpha.0, p.beta.0);
  }

  // -------------------------------------------------------------- one accepted step

  predicate SameSize(a: PowersOfTau, b: PowersOfTau) {
    |a.tauG1| == |b.tauG1| && |a.tauG2| == |b.tauG2|
    && |a.alphaTauG1| == |b.alphaTauG1| && |a.betaTauG1| == |b.betaTauG1|
  }

  /** Some nonzero draw contributes to `before` with this proof and this result. */
  ghost predicate IsContribution(r: Modulus, before: PowersOfTau, after: PowersOfTau, p: ContributionProof) {
    exists d: Draw :: ContributedBy(r, before, after, p, d)
  }

  ghost predicate ContributedBy(r: Modulus, before: PowersOfTau, after: PowersOfTau, p: ContributionProof, d: Draw) {
    DrawInField(r, d) && NonZeroDraw(d) && p == ProofOf(r, d) && after == Contributed(r, before, d)
  }

  /** A ratio given by the proof of a draw is multiplication by its factor. */
  lemma RatioMultiplies(r: Modulus, s: int, delta: int, from: int, to: int)
    requires IsPrime(r) && InField(r, s) && s != 0 && InField(r, to)
    requires Mul(r, s, to) == Mul(r, Mul(r, delta, s), from)
    ensures to == Mul(r, delta, from)
  {
    RatioHolds(r, s, delta, from);
    MulComm(r, s, to);
    MulComm(r, s, Mul(r, delta, from));
    MulCancel(r, to, Mul(r, delta, from), s);
  }

  lemma SecretsMultiply(r: Modulus, d: Draw, from: Secrets, to: Secrets)
    requires IsPrime(r) && DrawInField(r, d) && NonZeroDraw(d)
    requires InField(r, to.tau) && InField(r, to.alpha) && InField(r, to.beta)
    requires Ratios(r, ProofOf(r, d), from, to)
    ensures to == Times(r, d, from)
  {
    RatioMultiplies(r, d.s1, d.tau, from.tau, to.tau);
    RatioMultiplies(r, d.s2, d.alpha, from.alpha, to.alpha);
    RatioMultiplies(r, d.s3, d.beta, from.beta, to.beta);
  }

  ghost predicate ExactBy(r: Modulus, srs: PowersOfTau, s: Secrets) {
    Exact(r, srs, s.tau, s.alpha, s.beta)
  }

  /** Secrets and lengths determine a string. */
  lemma SizeDetermines(r: Modulus, a: PowersOfTau, b: PowersOfTau, s: Secrets)
    requires ExactBy(r, a, s) && ExactBy(r, b, s) && SameSize(a, b)
    ensures a == b
  {
  }

  lemma VisibleSecrets(r: Modulus, srs: PowersOfTau, s: Secrets)
    requires ExactBy(r, srs, s) && TwoEach(srs)
    ensures Visible(srs) == s
  {
    ExactEntries(r, srs, s.tau, s.alpha, s.beta);
  }

  /** A genuine string of the same lengths, in the ratios of a draw's proof, is that draw's
      contribution. */
  lemma StepByDraw(r: Modulus, before: PowersOfTau, after: PowersOfTau, s: Secrets, d: Draw)
    requires IsPrime(r) && ExactBy(r, before, s) && ExactBy(r, after, Visible(after)) && SameSize(before, after)
    requires DrawInField(r, d) && NonZeroDraw(d) && Ratios(r, ProofOf(r, d), s, Visible(after))
    ensures after == Contributed(r, before, d)
  {
    SecretsMultiply(r, d, s, Visible(after));
    ContributionMultiplies(r, before, s.tau, s.alpha, s.beta, d);
    SizeDetermines(r, after, Contributed(r, before, d), Visible(after));
  }

  /** Both checks pass. */
  predicate BothAccept(r: Modulus, before: PowersOfTau, after: PowersOfTau, p: ContributionProof) {
    VerifyContribution(r, before, after, p) == Accepted && VerifyConsistency(r, after) == Accepted
  }

  lemma ContributionAccepted(r: Modulus, before: PowersOfTau, s: Secrets, d: Draw)
    requires IsPrime(r) && ExactBy(r, before, s) && TwoEach(before) && DrawInField(r, d) && NonZeroDraw(d)
    ensures var after := Contributed(r, before, d);
      BothAccept(r, before, after, ProofOf(r, d)) && SameSize(before, after) && ExactBy(r, after, Times(r, d, s))
  {
    var after, s' := Contributed(r, before, d), Times(r, d, s);
    HonestContribution(r, before, s.tau, s.alpha, s.beta, d);
    ContributionMultiplies(r, before, s.tau, s.alpha, s.beta, d);
    ExactEntries(r, after, s'.tau, s'.alpha, s'.beta);
    ConsistentIffSecrets(r, after);
  }

  /** What the step check is for, exactly: on a genuine string, the two checks pass and the
      lengths are kept if and only if the new string is a contribution to the old one by a
      draw that the proof belongs to. */
  lemma StepIsContribution(r: Modulus, before: PowersOfTau, after: PowersOfTau, s: Secrets, p: ContributionProof)
    requires IsPrime(r) && ExactBy(r, before, s) && TwoEach(before)
    requires SrsInField(r, after) && ProofInField(r, p)
    ensures BothAccept(r, before, after, p) && SameSize(before, after) <==> IsContribution(r, before, after, p)
  {
    VisibleSecrets(r, before, s);
    if BothAccept(r, before, after, p) && SameSize(before, after) {
      StepAndStringMean(r, before, after, p);
      var d := DrawBehind(r, p);
      StepByDraw(r, before, after, s, d);
      assert ContributedBy(r, before, after, p, d);
    }
    if IsContribution(r, before, after, p) {
      var d: Draw :| ContributedBy(r, before, after, p, d);
      ContributionAccepted(r, before, s, d);
    }
  }

  // ------------------------------------------------------- the same, entry by entry

  /** Entry `i` of both series in the ratio (c.1·p.1^i) : (c.0·p.0^i), as a cross-product. */
  ghost predicate EntriesInRatio(r: Modulus, xs: seq<int>, ys: seq<int>, p: (int, int), c: (int, int)) {
    |xs| == |ys|
    && forall i :: 0 <= i < |xs| ==> EntryInRatio(r, xs[i], ys[i], p, c, i)
  }

  predicate EntryInRatio(r: Modulus, x: int, y: int, p: (int, int), c: (int, int), i: nat) {
    Mul(r, Mul(r, c.0, Pow(r, p.0, i)), y) == Mul(r, Mul(r, c.1, Pow(r, p.1, i)), x)
  }

  /** Every entry of the new string is in the ratio of the proof to the entry of the old one. */
  ghost predicate InProofRatio(r: Modulus, before: PowersOfTau, after: PowersOfTau, p: ContributionProof) {
    !HasIdentity(p)
    && EntriesInRatio(r, before.tauG1, after.tauG1, p.tau, (1, 1))
    && EntriesInRatio(r, before.tauG2, after.tauG2, p.tau, (1, 1))
    && EntriesInRatio(r, before.alphaTauG1, after.alphaTauG1, p.tau, p.alpha)
    && EntriesInRatio(r, before.betaTauG1, after.betaTauG1, p.tau, p.beta)
    && Mul(r, p.beta.0, after.betaG2) == Mul(r, p.beta.1, before.betaG2)
  }

  lemma EntryIsScaled(r: Modulus, x: int, y: int, s: int, delta: int, c: int, k: int, i: nat)
    requires IsPrime(r) && InField(r, s) && s != 0 && InField(r, c) && c != 0 && InField(r, y)
    ensures EntryInRatio(r, x, y, (s, Mul(r, delta, s)), (c, Mul(r, k, c)), i)
      <==> y == Mul(r, Mul(r, k, Pow(r, delta, i)), x)
  {
    var scale, unit := Mul(r, k, Pow(r, delta, i)), Mul(r, c, Pow(r, s, i));
    PowMul(r, delta, s, i);
    MulSwap(r, k, c, Pow(r, delta, i), Pow(r, s, i));
    PowNonZero(r, s, i);
    NoZeroDivisors(r, c, Pow(r, s, i));
    RatioHolds(r, unit, scale, x);
    if Mul(r, unit, y) == Mul(r, Mul(r, scale, unit), x) {
      RatioMultiplies(r, unit, scale, x, y);
    }
  }

  lemma EntriesAreScaled(r: Modulus, xs: seq<int>, ys: seq<int>, s: int, delta: int, c: int, k: int)
    requires IsPrime(r) && InField(r, s) && s != 0 && InField(r, c) && c != 0 && AllInField(r, ys)
    ensures EntriesInRatio(r, xs, ys, (s, Mul(r, delta, s)), (c, Mul(r, k, c))) <==> ys == Scaled(r, xs, delta, k)
  {
    if |xs| == |ys| {
      forall i | 0 <= i < |xs|
        ensures EntryInRatio(r, xs[i], ys[i], (s, Mul(r, delta, s)), (c, Mul(r, k, c)), i)
          <==> ys[i] == Scaled(r, xs, delta, k)[i]
      {
        EntryIsScaled(r, xs[i], ys[i], s, delta, c, k, i);
      }
    }
  }

  lemma RatioOfDraw(r: Modulus, before: PowersOfTau, after: PowersOfTau, d: Draw)
    requires IsPrime(r) && SrsInField(r, after) && DrawInField(r, d) && NonZeroDraw(d)
    ensures InProofRatio(r, before, after, ProofOf(r, d)) <==> after == Contributed(r, before, d)
  {
    ProofHasIdentity(r, d);
    MulOne(r, 1);
    EntriesAreScaled(r, before.tauG1, after.tauG1, d.s1, d.tau, 1, 1);
    EntriesAreScaled(r, before.tauG2, after.tauG2, d.s1, d.tau, 1, 1);
    EntriesAreScaled(r, before.alphaTauG1, after.alphaTauG1, d.s1, d.tau, d.s2, d.alpha);
    EntriesAreScaled(r, before.betaTauG1, after.betaTauG1, d.s1, d.tau, d.s3, d.beta);
    RatioHolds(r, d.s3, d.beta, before.betaG2);
    MulComm(r, before.betaG2, d.beta);
    if Mul(r, d.s3, after.betaG2) == Mul(r, Mul(r, d.beta, d.s3), before.betaG2) {
      RatioMultiplies(r, d.s3, d.beta, before.betaG2, after.betaG2);
    }
  }

  /** Being a contribution can be read off the entries and the proof. */
  lemma ContributionInRatio(r: Modulus, before: PowersOfTau, after: PowersOfTau, p: ContributionProof)
    requires IsPrime(r) && SrsInField(r, after) && ProofInField(r, p)
    ensures IsContribution(r, before, after, p) <==> InProofRatio(r, before, after, p)
  {
    if IsContribution(r, before, after, p) {
      var d: Draw :| ContributedBy(r, before, after, p, d);
      RatioOfDraw(r, before, after, d);
    }
    if InProofRatio(r, before, after, p) {
      var d := DrawBehind(r, p);
      RatioOfDraw(r, before, after, d);
      assert ContributedBy(r, before, after, p, d);
    }
  }

  // --------------------------------------------------------------- a shortened step

  /** The first two entries of every series. */
  function Cut(srs: PowersOfTau): PowersOfTau
    requires TwoEach(srs)
  {
    PowersOfTau(srs.tauG1[..2], srs.tauG2[..2], srs.alphaTauG1[..2], srs.betaTauG1[..2], srs.betaG2)
  }

  lemma CutExact(r: Modulus, srs: PowersOfTau, s: Secrets)
    requires ExactBy(r, srs, s) && TwoEach(srs)
    ensures ExactBy(r, Cut(srs), s) && Visible(Cut(srs)) == Visible(srs)
  {
  }

  /** The failing input: the honest contribution cut to two entries passes both checks, and is
      no contribution to the longer string. */
  lemma CutPasses(r: Modulus, before: PowersOfTau, s: Secrets, d: Draw)
    requires IsPrime(r) && ExactBy(r, before, s) && TwoEach(before) && |before.tauG1| > 2
    requires DrawInField(r, d) && NonZeroDraw(d)
    ensures var after := Cut(Contributed(r, before, d));
      BothAccept(r, before, after, ProofOf(r, d)) && forall e: Draw :: after != Contributed(r, before, e)
  {
    var long, s' := Contributed(r, before, d), Times(r, d, s);
    ContributionAccepted(r, before, s, d);
    VisibleSecrets(r, before, s);
    VisibleSecrets(r, long, s');
    CutExact(r, long, s');
    ExactEntries(r, long, s'.tau, s'.alpha, s'.beta);
    ExactEntries(r, Cut(long), s'.tau, s'.alpha, s'.beta);
    StepAndStringMean(r, before, long, ProofOf(r, d));
    StepAndStringMean(r, before, Cut(long), ProofOf(r, d));
  }

  // ------------------------------------------------------------------- transcripts

  /** All snapshots have the lengths of the first. */
  ghost predicate OneSize(t: CeremonyTranscript) {
    forall i :: 0 <= i < |t.snapshots| ==> SameSize(t.snapshots[0], t.snapshots[i])
  }

  ghost predicate DerivedAt(r: Modulus, t: CeremonyTranscript, i: nat)
    requires 1 <= i < |t.snapshots| == |t.contributions|
  {
    IsContribution(r, t.snapshots[i - 1], t.snapshots[i], t.contributions[i].proof)
  }

  lemma GenuineStep(L: Library, t: CeremonyTranscript, i: nat)
    requires IsPrime(L.r) && ProperTranscript(L, t) && 1 <= i < |t.snapshots| == |t.contributions|
    requires GenuineRecord(L, t, i - 1) && GenuineRecord(L, t, i)
    ensures DerivedAt(L.r, t, i) <==> SameSize(t.snapshots[i - 1], t.snapshots[i])
  {
    var before, after := t.snapshots[i - 1], t.snapshots[i];
    assert Proper(L, after) && ProofInField(L.r, t.contributions[i].proof);
    StepAndStringMean(L.r, before, after, t.contributions[i].proof);
    StepIsContribution(L.r, before, after, Visible(before), t.contributions[i].proof);
  }

  lemma {:induction false} SizesChain(t: CeremonyTranscript, i: nat)
    requires i < |t.snapshots|
    requires forall k :: 1 <= k < |t.snapshots| ==> SameSize(t.snapshots[k - 1], t.snapshots[k])
    ensures SameSize(t.snapshots[0], t.snapshots[i])
  {
    if i > 0 {
      SizesChain(t, i - 1);
    }
  }

  /** In an accepted transcript all snapshots have one size if and only if each is its proof's
      contribution to the one before. */
  lemma OneSizeMeans(L: Library, t: CeremonyTranscript, finalSrs: PowersOfTau)
    requires IsPrime(L.r) && ProperTranscript(L, t) && VerifyTranscript(L, t, finalSrs) == Accepted
    ensures |t.contributions| == |t.snapshots|
    ensures OneSize(t) <==> forall i :: 1 <= i < |t.snapshots| ==> DerivedAt(L.r, t, i)
  {
    TranscriptMeans(L, t, finalSrs);
    forall i | 1 <= i < |t.snapshots|
      ensures DerivedAt(L.r, t, i) <==> SameSize(t.snapshots[i - 1], t.snapshots[i])
    {
      GenuineStep(L, t, i);
    }
    if forall i :: 1 <= i < |t.snapshots| ==> DerivedAt(L.r, t, i) {
      forall i | 0 <= i < |t.snapshots| ensures SameSize(t.snapshots[0], t.snapshots[i]) {
        SizesChain(t, i);
      }
    }
  }

  /** The draws behind the first `n` proofs. */
  lemma DrawsBehind(L: Library, t: CeremonyTranscript, n: nat) returns (draws: seq<Draw>)
    requires IsPrime(L.r) && ProperTranscript(L, t) && n <= |t.contributions|
    requires forall i :: 0 <= i < n ==> !HasIdentity(t.contributions[i].proof)
    ensures |draws| == n && HonestDraws(L.r, draws)
    ensures forall i :: 0 <= i < n ==> ProofOf(L.r, draws[i]) == t.contributions[i].proof
  {
    draws := [];
    for i := 0 to n
      invariant |draws| == i && HonestDraws(L.r, draws)
      invariant forall k :: 0 <= k < i ==> ProofOf(L.r, draws[k]) == t.contributions[k].proof
    {
      assert ProofInField(L.r, t.contributions[i].proof);
      var d := DrawBehind(L.r, t.contributions[i].proof);
      draws := draws + [d];
    }
  }

  ghost predicate AllSized(t: CeremonyTranscript, degree: nat)
    requires degree >= 1
  {
    forall i :: 0 <= i < |t.snapshots| ==> Sized(t.snapshots[i], degree)
  }

  lemma FirstIsInitial(r: Modulus, degree: nat, srs: PowersOfTau, d: Draw)
    requires IsPrime(r) && degree >= 2 && Sized(srs, degree) && ExactBy(r, srs, Visible(srs))
    requires DrawInField(r, d) && NonZeroDraw(d) && Ratios(r, ProofOf(r, d), Secrets(1, 1, 1), Visible(srs))
    ensures srs == Initial(r, degree, d)
  {
    SecretsMultiply(r, d, Secrets(1, 1, 1), Visible(srs));
    MulOne(r, d.tau);
    MulOne(r, d.alpha);
    MulOne(r, d.beta);
    InitialIsExact(r, degree, d);
    SizeDetermines(r, srs, Initial(r, degree, d), Visible(srs));
  }

  lemma RecordIsHonest(L: Library, degree: nat, t: CeremonyTranscript, draws: seq<Draw>, k: nat)
    requires IsPrime(L.r) && degree >= 2 && k < |t.snapshots| == |t.contributions| == |draws|
    requires HonestDraws(L.r, draws) && AllSized(t, degree) && AllGenuine(L, t)
    requires ProofOf(L.r, draws[k]) == t.contributions[k].proof
    ensures HonestAt(L, degree, draws, t, k)
  {
    assert GenuineRecord(L, t, k);
    if k == 0 {
      FirstIsInitial(L.r, degree, t.snapshots[0], draws[0]);
    } else {
      assert GenuineRecord(L, t, k - 1);
      StepByDraw(L.r, t.snapshots[k - 1], t.snapshots[k], Visible(t.snapshots[k - 1]), draws[k]);
    }
  }

  lemma RunPasses(L: Library, degree: nat, draws: seq<Draw>, t: CeremonyTranscript, finalSrs: PowersOfTau)
    requires IsPrime(L.r) && HonestRun(L, degree, draws, t)
    requires HashOf(L, t.snapshots[|draws| - 1]) == HashOf(L, finalSrs)
    ensures VerifyTranscript(L, t, finalSrs) == Accepted && AllSized(t, degree)
  {
    HonestRunVerifies(L, degree, draws, t);
    AcceptanceParts(L, t, t.snapshots[|draws| - 1]);
    AcceptanceParts(L, t, finalSrs);
    forall i | 0 <= i < |t.snapshots| ensures Sized(t.snapshots[i], degree) {
      HonestRunMultiplies(L, degree, draws, t, i);
    }
  }

  /** The accepted transcripts whose snapshots all have the size of a degree are exactly the
      transcripts of honest runs of that degree. */
  lemma SizedTranscriptIsRun(L: Library, degree: nat, t: CeremonyTranscript, finalSrs: PowersOfTau)
    requires IsPrime(L.r) && ProperTranscript(L, t) && degree >= 2
    ensures VerifyTranscript(L, t, finalSrs) == Accepted && AllSized(t, degree) <==>
      (exists draws :: HonestRun(L, degree, draws, t))
      && HashOf(L, t.snapshots[|t.snapshots| - 1]) == HashOf(L, finalSrs)
  {
    if VerifyTranscript(L, t, finalSrs) == Accepted && AllSized(t, degree) {
      TranscriptMeans(L, t, finalSrs);
      forall i | 0 <= i < |t.contributions| ensures !HasIdentity(t.contributions[i].proof) {
        assert GenuineRecord(L, t, i);
      }
      var draws := DrawsBehind(L, t, |t.contributions|);
      forall k: nat | k < |draws| ensures HonestAt(L, degree, draws, t, k) {
        RecordIsHonest(L, degree, t, draws, k);
      }
      assert HonestRun(L, degree, draws, t);
    }
    if draws :| HonestRun(L, degree, draws, t) && HashOf(L, t.snapshots[|t.snapshots| - 1]) == HashOf(L, finalSrs) {
      RunPasses(L, degree, draws, t, finalSrs);
    }
  }

  // -------------------------------------------------------- a shortened transcript

  /** Two honest contributions, the second one cut to two entries. */
  function CutTranscript(L: Library, degree: nat, d: Draw, e: Draw): CeremonyTranscript
    requires degree >= 2
  {
    var first := Initial(L.r, degree, d);
    var last := Cut(Contributed(L.r, first, e));
    CeremonyTranscript([Record(0, ProofOf(L.r, d), HashOf(L, first)), Record(1, ProofOf(L.r, e), HashOf(L, last))],
                       [first, last])
  }

  /** It is accepted, with two powers of tau left, whatever the degree. */
  lemma CutTranscriptAccepted(L: Library, degree: nat, d: Draw, e: Draw)
    requires IsPrime(L.r) && degree >= 2
    requires DrawInField(L.r, d) && NonZeroDraw(d) && DrawInField(L.r, e) && NonZeroDraw(e)
    ensures var t := CutTranscript(L, degree, d, e);
      VerifyTranscript(L, t, t.snapshots[1]) == Accepted
      && |t.snapshots[0].tauG1| == 2 * degree - 1 && |t.snapshots[1].tauG1| == 2
      && forall x: Draw :: t.snapshots[1] != Contributed(L.r, t.snapshots[0], x)
  {
    var t := CutTranscript(L, degree, d, e);
    CutFacts(L, degree, d, e);
    CutChecks(L, t);
    AcceptanceParts(L, t, t.snapshots[1]);
  }

  lemma CutFacts(L: Library, degree: nat, d: Draw, e: Draw)
    requires IsPrime(L.r) && degree >= 2
    requires DrawInField(L.r, d) && NonZeroDraw(d) && DrawInField(L.r, e) && NonZeroDraw(e)
    ensures var t := CutTranscript(L, degree, d, e);
      VerifyInitial(L.r, t.snapshots[0], t.contributions[0].proof) == Accepted
      && BothAccept(L.r, t.snapshots[0], t.snapshots[1], t.contributions[1].proof)
      && forall x: Draw :: t.snapshots[1] != Contributed(L.r, t.snapshots[0], x)
  {
    InitialIsExact(L.r, degree, d);
    CutPasses(L.r, Initial(L.r, degree, d), Secrets(d.tau, d.alpha, d.beta), e);
    HonestInitial(L.r, degree, d);
  }

  lemma CutChecks(L: Library, t: CeremonyTranscript)
    requires |t.snapshots| == 2 == |t.contributions|
    requires forall i :: 0 <= i < 2 ==>
      t.contributions[i].index == i && t.contributions[i].srsHash == HashOf(L, t.snapshots[i])
    requires VerifyInitial(L.r, t.snapshots[0], t.contributions[0].proof) == Accepted
    requires BothAccept(L.r, t.snapshots[0], t.snapshots[1], t.contributions[1].proof)
    ensures GroupsPass(L, t)
  {
    forall i | 0 <= i < 2 ensures CheckedRecord(L, t, i) {
    }
    ChecksGroup(L, t);
  }
}
