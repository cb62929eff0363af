/** The ceremony run and the public verification of its transcript. */
module Transcript {
  import opened PrimeField
  import opened Bytes
  import opened Ceremony
  import opened SrsCodec
  import opened Stepwise

  datatype Record = Record(index: nat, proof: ContributionProof, srsHash: seq<byte>)

  datatype CeremonyTranscript = CeremonyTranscript(contributions: seq<Record>, snapshots: seq<PowersOfTau>)

  datatype Tier = Small | Medium | Large

  function RequiredDegree(tier: Tier): (degree: nat)
    ensures degree >= 2
  {
    match tier
    case Small => 2048
    case Medium => 4096
    case Large => 4096
  }

  // ---------------------------------------------------------------- verification

  function RecordVerdict(L: Library, i: nat, record: Record, snapshot: PowersOfTau): Verdict {
    if record.index != i || record.srsHash != HashOf(L, snapshot) then Rejected
    else VerifyConsistency(L.r, snapshot)
  }

  /** First verdict other than acceptance among records `i` on. */
  function RecordsVerdict(L: Library, t: CeremonyTranscript, i: nat): Verdict
    requires |t.contributions| == |t.snapshots| && i <= |t.snapshots|
    decreases |t.snapshots| - i
  {
    if i == |t.snapshots| then Accepted
    else
      var v := RecordVerdict(L, i, t.contributions[i], t.snapshots[i]);
      if v != Accepted then v else RecordsVerdict(L, t, i + 1)
  }

  function StepsVerdict(L: Library, t: CeremonyTranscript, i: nat): Verdict
    requires |t.contributions| == |t.snapshots| && 1 <= i <= |t.snapshots|
    decreases |t.snapshots| - i
  {
    if i == |t.snapshots| then Accepted
    else
      var v := VerifyContribution(L.r, t.snapshots[i - 1], t.snapshots[i], t.contributions[i].proof);
      if v != Accepted then v else StepsVerdict(L, t, i + 1)
  }

  function VerifyTranscript(L: Library, t: CeremonyTranscript, finalSrs: PowersOfTau): Verdict {
    if t.contributions == [] || t.snapshots == [] || |t.contributions| != |t.snapshots| then Rejected
    else
      var records := RecordsVerdict(L, t, 0);
      if records != Accepted then records
      else
        var initial := VerifyInitial(L.r, t.snapshots[0], t.contributions[0].proof);
        if initial != Accepted then initial
        else
          var steps := StepsVerdict(L, t, 1);
          if steps != Accepted then steps
          else Decide(HashOf(L, t.snapshots[|t.snapshots| - 1]) == HashOf(L, finalSrs))
  }

  method CheckTranscript(L: Library, t: CeremonyTranscript, finalSrs: PowersOfTau) returns (verdict: Verdict)
    ensures verdict == VerifyTranscript(L, t, finalSrs)
  {
    if t.contributions == [] || t.snapshots == [] || |t.contributions| != |t.snapshots| {
      return Rejected;
    }
    for i := 0 to |t.snapshots|
      invariant RecordsVerdict(L, t, i) == RecordsVerdict(L, t, 0)
    {
      if t.contributions[i].index != i {
        return Rejected;
      }
      var digest := HashSrs(L, t.snapshots[i]);
      if t.contributions[i].srsHash != digest {
        return Rejected;
      }
      var v := CheckConsistency(L.r, t.snapshots[i]);
      if v != Accepted {
        return v;
      }
    }
    var initial := VerifyInitial(L.r, t.snapshots[0], t.contributions[0].proof);
    if initial != Accepted {
      return initial;
    }
    for i := 1 to |t.contributions|
      invariant StepsVerdict(L, t, i) == StepsVerdict(L, t, 1)
    {
      var v := VerifyContribution(L.r, t.snapshots[i - 1], t.snapshots[i], t.contributions[i].proof);
      if v != Accepted {
        return v;
      }
    }
    var last := HashSrs(L, t.snapshots[|t.snapshots| - 1]);
    var final := HashSrs(L, finalSrs);
    verdict := Decide(last == final);
  }

  lemma {:induction false} RecordsAccepted(L: Library, t: CeremonyTranscript, i: nat)
    requires |t.contributions| == |t.snapshots| && i <= |t.snapshots|
    ensures RecordsVerdict(L, t, i) == Accepted <==>
      forall k :: i <= k < |t.snapshots| ==> RecordVerdict(L, k, t.contributions[k], t.snapshots[k]) == Accepted
    decreases |t.snapshots| - i
  {
    if i < |t.snapshots| {
      RecordsAccepted(L, t, i + 1);
    }
  }

  lemma {:induction false} StepsAccepted(L: Library, t: CeremonyTranscript, i: nat)
    requires |t.contributions| == |t.snapshots| && 1 <= i <= |t.snapshots|
    ensures StepsVerdict(L, t, i) == Accepted <==>
      forall k :: i <= k < |t.snapshots| ==> StepOk(L, t, k)
    decreases |t.snapshots| - i
  {
    if i < |t.snapshots| {
      StepsAccepted(L, t, i + 1);
      assert StepsVerdict(L, t, i) == Accepted <==> StepOk(L, t, i) && StepsVerdict(L, t, i + 1) == Accepted;
    }
  }

  predicate StepOk(L: Library, t: CeremonyTranscript, k: nat)
    requires |t.contributions| == |t.snapshots| && 1 <= k < |t.snapshots|
  {
    VerifyContribution(L.r, t.snapshots[k - 1], t.snapshots[k], t.contributions[k].proof) == Accepted
  }

  // ----------------------------------------------------------------- soundness

  ghost predicate Proper(L: Library, srs: PowersOfTau) {
    SrsInField(L.r, srs) && Encodable(srs)
  }

  ghost predicate ProperTranscript(L: Library, t: CeremonyTranscript) {
    (forall i :: 0 <= i < |t.snapshots| ==> Proper(L, t.snapshots[i]))
    && (forall i :: 0 <= i < |t.contributions| ==> ProofInField(L.r, t.contributions[i].proof))
  }

  datatype Factor = TauFactor | AlphaFactor | BetaFactor

  function Old(p: ContributionProof, f: Factor): int {
    match f case TauFactor => p.tau.0 case AlphaFactor => p.alpha.0 case BetaFactor => p.beta.0
  }

  function New(p: ContributionProof, f: Factor): int {
    match f case TauFactor => p.tau.1 case AlphaFactor => p.alpha.1 case BetaFactor => p.beta.1
  }

  function Secret(s: Secrets, f: Factor): int {
    match f case TauFactor => s.tau case AlphaFactor => s.alpha case BetaFactor => s.beta
  }

  function Olds(t: CeremonyTranscript, f: Factor): (xs: seq<int>)
    ensures |xs| == |t.contributions|
  {
    seq(|t.contributions|, i requires 0 <= i < |t.contributions| => Old(t.contributions[i].proof, f))
  }

  function News(t: CeremonyTranscript, f: Factor): (xs: seq<int>)
    ensures |xs| == |t.contributions|
  {
    seq(|t.contributions|, i requires 0 <= i < |t.contributions| => New(t.contributions[i].proof, f))
  }

  /** The secret before any contribution, then after each. */
  function SecretTrail(t: CeremonyTranscript, f: Factor): (xs: seq<int>)
    ensures |xs| == |t.snapshots| + 1
  {
    [1] + seq(|t.snapshots|, i requires 0 <= i < |t.snapshots| => Secret(Visible(t.snapshots[i]), f))
  }

  lemma RatiosOf(r: Modulus, p: ContributionProof, from: Secrets, to: Secrets, f: Factor)
    requires Ratios(r, p, from, to)
    ensures Mul(r, Old(p, f), Secret(to, f)) == Mul(r, New(p, f), Secret(from, f))
    ensures Old(p, f) != 0 && New(p, f) != 0
  {
  }

  ghost predicate SnapshotExact(L: Library, t: CeremonyTranscript, i: nat)
    requires i < |t.snapshots|
  {
    var s := Visible(t.snapshots[i]);
    Exact(L.r, t.snapshots[i], s.tau, s.alpha, s.beta)
  }

  /** Acceptance, taken apart. */
  lemma AcceptanceParts(L: Library, t: CeremonyTranscript, finalSrs: PowersOfTau)
    ensures VerifyTranscript(L, t, finalSrs) == Accepted <==>
      |t.contributions| == |t.snapshots| >= 1
      && RecordsVerdict(L, t, 0) == Accepted
      && VerifyInitial(L.r, t.snapshots[0], t.contributions[0].proof) == Accepted
      && StepsVerdict(L, t, 1) == Accepted
      && HashOf(L, t.snapshots[|t.snapshots| - 1]) == HashOf(L, finalSrs)
  {
  }

  function Before(t: CeremonyTranscript, i: nat): Secrets
    requires i <= |t.snapshots|
  {
    if i == 0 then Secrets(1, 1, 1) else Visible(t.snapshots[i - 1])
  }

  /** An accepted transcript, of any length: every snapshot is the string of three nonzero
      secrets; each final secret is the product of all contributed ratios, in cross-product
      form and the only value that is; the final SRS is the last snapshot, or SHA-256
      collides. */
  lemma TranscriptSound(L: Library, t: CeremonyTranscript, finalSrs: PowersOfTau)
    requires IsPrime(L.r) && Sound(L) && ProperTranscript(L, t) && Proper(L, finalSrs)
    requires VerifyTranscript(L, t, finalSrs) == Accepted
    ensures |t.snapshots| == |t.contributions| >= 1
    ensures forall i :: 0 <= i < |t.snapshots| ==> SnapshotExact(L, t, i)
    ensures forall f: Factor :: FinalIsProduct(L.r, t, f)
    ensures forall f: Factor, x: int :: IsProduct(L.r, t, f, x) ==> x == FinalSecret(t, f)
    ensures var last := t.snapshots[|t.snapshots| - 1];
      finalSrs == last || ShaCollision(L, Encode(L, last), Encode(L, finalSrs))
  {
    TranscriptMeans(L, t, finalSrs);
    GenuineSound(L, t);
    LastIsFinal(L, t, finalSrs);
  }

  lemma LastIsFinal(L: Library, t: CeremonyTranscript, finalSrs: PowersOfTau)
    requires Sound(L) && t.snapshots != [] && ProperTranscript(L, t) && Proper(L, finalSrs)
    requires HashOf(L, t.snapshots[|t.snapshots| - 1]) == HashOf(L, finalSrs)
    ensures var last := t.snapshots[|t.snapshots| - 1];
      finalSrs == last || ShaCollision(L, Encode(L, last), Encode(L, finalSrs))
  {
    assert Proper(L, t.snapshots[|t.snapshots| - 1]);
    HashBinding(L, t.snapshots[|t.snapshots| - 1], finalSrs);
  }

  lemma GenuineSound(L: Library, t: CeremonyTranscript)
    requires IsPrime(L.r) && ProperTranscript(L, t)
    requires |t.contributions| == |t.snapshots| >= 1 && AllGenuine(L, t)
    ensures forall i :: 0 <= i < |t.snapshots| ==> SnapshotExact(L, t, i)
    ensures forall f: Factor :: FinalIsProduct(L.r, t, f)
    ensures forall f: Factor, x: int :: IsProduct(L.r, t, f, x) ==> x == FinalSecret(t, f)
  {
    forall i | 0 <= i < |t.snapshots| ensures SnapshotExact(L, t, i) {
      assert GenuineRecord(L, t, i);
    }
    forall f: Factor ensures FinalIsProduct(L.r, t, f) {
      GenuineTelescopes(L, t, f);
    }
    forall f: Factor, x: int | IsProduct(L.r, t, f, x) ensures x == FinalSecret(t, f) {
      assert FinalIsProduct(L.r, t, f);
      RatioDetermines(L.r, Product(L.r, Olds(t, f)), Product(L.r, News(t, f)), x, FinalSecret(t, f));
    }
  }

  function FinalSecret(t: CeremonyTranscript, f: Factor): int
    requires t.snapshots != []
  {
    Secret(Visible(t.snapshots[|t.snapshots| - 1]), f)
  }

  /** Times the product of the first proof points it is the product of the second ones. */
  ghost predicate IsProduct(r: Modulus, t: CeremonyTranscript, f: Factor, x: int) {
    InField(r, x) && Mul(r, Product(r, Olds(t, f)), x) == Product(r, News(t, f))
  }

  ghost predicate FinalIsProduct(r: Modulus, t: CeremonyTranscript, f: Factor)
    requires t.snapshots != []
  {
    Product(r, Olds(t, f)) != 0 && IsProduct(r, t, f, FinalSecret(t, f))
  }

  // ------------------------------------------------------ what acceptance means

  /** One record as the checks see it. */
  ghost predicate CheckedRecord(L: Library, t: CeremonyTranscript, i: nat)
    requires i < |t.snapshots| == |t.contributions|
  {
    RecordVerdict(L, i, t.contributions[i], t.snapshots[i]) == Accepted
    && if i == 0 then VerifyInitial(L.r, t.snapshots[0], t.contributions[0].proof) == Accepted else StepOk(L, t, i)
  }

  /** One record as the ceremony means it: numbered and hashed, over a genuine string in the
      proof's ratios to the one before. */
  ghost predicate GenuineRecord(L: Library, t: CeremonyTranscript, i: nat)
    requires i < |t.snapshots| == |t.contributions|
  {
    t.contributions[i].index == i && t.contributions[i].srsHash == HashOf(L, t.snapshots[i])
    && TwoEach(t.snapshots[i]) && SnapshotExact(L, t, i)
    && Ratios(L.r, t.contributions[i].proof, Before(t, i), Visible(t.snapshots[i]))
  }

  lemma FirstRecordMeans(L: Library, t: CeremonyTranscript)
    requires IsPrime(L.r) && 1 <= |t.snapshots| == |t.contributions| && SrsInField(L.r, t.snapshots[0])
    ensures CheckedRecord(L, t, 0) <==> GenuineRecord(L, t, 0)
  {
    InitialMeans(L.r, t.snapshots[0], t.contributions[0].proof);
    if TwoEach(t.snapshots[0]) {
      ConsistencyMeans(L.r, t.snapshots[0]);
    }
  }

  lemma LaterRecordMeans(L: Library, t: CeremonyTranscript, i: nat)
    requires IsPrime(L.r) && 1 <= i < |t.snapshots| == |t.contributions| && SrsInField(L.r, t.snapshots[i])
    requires TwoEach(t.snapshots[i - 1])
    ensures CheckedRecord(L, t, i) <==> GenuineRecord(L, t, i)
  {
    StepAndStringMean(L.r, t.snapshots[i - 1], t.snapshots[i], t.contributions[i].proof);
  }

  lemma CheckedIsLong(L: Library, t: CeremonyTranscript, i: nat)
    requires i < |t.snapshots| == |t.contributions| && CheckedRecord(L, t, i)
    ensures TwoEach(t.snapshots[i])
  {
  }

  lemma RecordMeans(L: Library, t: CeremonyTranscript, i: nat)
    requires IsPrime(L.r) && ProperTranscript(L, t) && i < |t.snapshots| == |t.contributions|
    requires i > 0 ==> CheckedRecord(L, t, i - 1)
    ensures CheckedRecord(L, t, i) <==> GenuineRecord(L, t, i)
  {
    assert Proper(L, t.snapshots[i]);
    if i == 0 {
      FirstRecordMeans(L, t);
    } else {
      CheckedIsLong(L, t, i - 1);
      LaterRecordMeans(L, t, i);
    }
  }

  ghost function Checks(L: Library, t: CeremonyTranscript): int -> bool {
    i => 0 <= i < |t.snapshots| == |t.contributions| && CheckedRecord(L, t, i)
  }

  ghost function Meanings(L: Library, t: CeremonyTranscript): int -> bool {
    i => 0 <= i < |t.snapshots| == |t.contributions| && GenuineRecord(L, t, i)
  }

  lemma RecordAgrees(L: Library, t: CeremonyTranscript, p: int -> bool, q: int -> bool, i: nat)
    requires IsPrime(L.r) && ProperTranscript(L, t) && i < |t.snapshots| == |t.contributions|
    requires p == Checks(L, t) && q == Meanings(L, t)
    ensures AgreesAt(p, q, i)
  {
    if i == 0 || p(i - 1) {
      RecordMeans(L, t, i);
    }
  }

  /** The three groups of checks, group by group. */
  ghost predicate GroupsPass(L: Library, t: CeremonyTranscript)
    requires |t.contributions| == |t.snapshots| >= 1
  {
    RecordsVerdict(L, t, 0) == Accepted
    && VerifyInitial(L.r, t.snapshots[0], t.contributions[0].proof) == Accepted
    && StepsVerdict(L, t, 1) == Accepted
  }

  lemma GroupsCheck(L: Library, t: CeremonyTranscript, i: nat)
    requires |t.contributions| == |t.snapshots| >= 1 && GroupsPass(L, t) && i < |t.snapshots|
    ensures CheckedRecord(L, t, i)
  {
    RecordsAccepted(L, t, 0);
    StepsAccepted(L, t, 1);
  }

  lemma ChecksGroup(L: Library, t: CeremonyTranscript)
    requires |t.contributions| == |t.snapshots| >= 1
    requires forall i :: 0 <= i < |t.snapshots| ==> CheckedRecord(L, t, i)
    ensures GroupsPass(L, t)
  {
    forall k | 0 <= k < |t.snapshots| ensures RecordVerdict(L, k, t.contributions[k], t.snapshots[k]) == Accepted {
      assert CheckedRecord(L, t, k);
    }
    RecordsAccepted(L, t, 0);
    forall k | 1 <= k < |t.snapshots| ensures StepOk(L, t, k) {
      assert CheckedRecord(L, t, k);
    }
    StepsAccepted(L, t, 1);
    assert CheckedRecord(L, t, 0);
  }

  ghost predicate AllGenuine(L: Library, t: CeremonyTranscript)
    requires |t.contributions| == |t.snapshots|
  {
    forall i :: 0 <= i < |t.snapshots| ==> GenuineRecord(L, t, i)
  }

  lemma GroupsMean(L: Library, t: CeremonyTranscript)
    requires IsPrime(L.r) && ProperTranscript(L, t) && |t.contributions| == |t.snapshots| >= 1
    ensures GroupsPass(L, t) <==> AllGenuine(L, t)
  {
    var p, q := Checks(L, t), Meanings(L, t);
    forall i | 0 <= i < |t.snapshots| ensures AgreesAt(p, q, i) {
      RecordAgrees(L, t, p, q, i);
    }
    AgreeThroughout(p, q, |t.snapshots|);
    MeaningsAll(L, t, q);
    ChecksAll(L, t, p);
  }

  lemma MeaningsAll(L: Library, t: CeremonyTranscript, q: int -> bool)
    requires |t.contributions| == |t.snapshots| && q == Meanings(L, t)
    ensures AllGenuine(L, t) <==> forall i :: 0 <= i < |t.snapshots| ==> q(i)
  {
    forall i | 0 <= i < |t.snapshots| ensures q(i) == GenuineRecord(L, t, i) {
    }
  }

  lemma ChecksAll(L: Library, t: CeremonyTranscript, p: int -> bool)
    requires |t.contributions| == |t.snapshots| >= 1 && p == Checks(L, t)
    ensures GroupsPass(L, t) <==> forall i :: 0 <= i < |t.snapshots| ==> p(i)
  {
    forall i | 0 <= i < |t.snapshots| ensures p(i) == CheckedRecord(L, t, i) {
    }
    if GroupsPass(L, t) {
      forall i | 0 <= i < |t.snapshots| ensures p(i) {
        GroupsCheck(L, t, i);
      }
    }
    if forall i :: 0 <= i < |t.snapshots| ==> p(i) {
      forall i | 0 <= i < |t.snapshots| ensures CheckedRecord(L, t, i) {
        assert p(i);
      }
      ChecksGroup(L, t);
    }
  }

  /** Acceptance exactly: every record is genuine and the final hash is the last one. */
  lemma TranscriptMeans(L: Library, t: CeremonyTranscript, finalSrs: PowersOfTau)
    requires IsPrime(L.r) && ProperTranscript(L, t)
    ensures VerifyTranscript(L, t, finalSrs) == Accepted <==>
      |t.contributions| == |t.snapshots| >= 1 && AllGenuine(L, t)
      && HashOf(L, t.snapshots[|t.snapshots| - 1]) == HashOf(L, finalSrs)
  {
    AcceptanceParts(L, t, finalSrs);
    if |t.contributions| == |t.snapshots| >= 1 {
      GroupsMean(L, t);
    }
  }

  lemma GenuineTelescopes(L: Library, t: CeremonyTranscript, f: Factor)
    requires IsPrime(L.r) && ProperTranscript(L, t)
    requires |t.contributions| == |t.snapshots| >= 1 && AllGenuine(L, t)
    ensures FinalIsProduct(L.r, t, f)
  {
    forall i | 0 <= i < |t.snapshots| ensures Ratios(L.r, t.contributions[i].proof, Before(t, i), Visible(t.snapshots[i])) {
      assert GenuineRecord(L, t, i);
    }
    TrailTelescopes(L, t, f);
  }

  lemma TrailTelescopes(L: Library, t: CeremonyTranscript, f: Factor)
    requires IsPrime(L.r) && ProperTranscript(L, t)
    requires |t.contributions| == |t.snapshots| >= 1
    requires forall i :: 0 <= i < |t.snapshots| ==>
      Ratios(L.r, t.contributions[i].proof, Before(t, i), Visible(t.snapshots[i]))
    ensures FinalIsProduct(L.r, t, f)
  {
    var p, q, v := Olds(t, f), News(t, f), SecretTrail(t, f);
    TrailInField(L, t, f);
    forall i: nat | i < |p| ensures TrailStep(L.r, p, q, v, i) {
      TrailStepOf(L.r, t, f, i);
    }
    TelescopeTrail(L.r, p, q, v);
    MulOne(L.r, Product(L.r, q));
  }

  lemma TrailStepOf(r: Modulus, t: CeremonyTranscript, f: Factor, i: nat)
    requires i < |t.contributions| == |t.snapshots|
    requires Ratios(r, t.contributions[i].proof, Before(t, i), Visible(t.snapshots[i]))
    ensures TrailStep(r, Olds(t, f), News(t, f), SecretTrail(t, f), i)
  {
    RatiosOf(r, t.contributions[i].proof, Before(t, i), Visible(t.snapshots[i]), f);
    assert SecretTrail(t, f)[i] == Secret(Before(t, i), f);
    assert SecretTrail(t, f)[i + 1] == Secret(Visible(t.snapshots[i]), f);
  }

  ghost predicate TrailStep(r: Modulus, p: seq<int>, q: seq<int>, v: seq<int>, i: nat)
    requires i < |p| == |q| && |v| == |p| + 1
  {
    p[i] != 0 && Mul(r, p[i], v[i + 1]) == Mul(r, q[i], v[i])
  }

  lemma TelescopeTrail(r: Modulus, p: seq<int>, q: seq<int>, v: seq<int>)
    requires IsPrime(r) && |p| == |q| && |v| == |p| + 1
    requires AllInField(r, p) && AllInField(r, v)
    requires forall i: nat :: i < |p| ==> TrailStep(r, p, q, v, i)
    ensures Product(r, p) != 0
    ensures Mul(r, Product(r, p), v[|p|]) == Mul(r, Product(r, q), v[0])
  {
    forall i | 0 <= i < |p| ensures p[i] != 0 && Mul(r, p[i], v[i + 1]) == Mul(r, q[i], v[i]) {
      assert TrailStep(r, p, q, v, i);
    }
    Telescope(r, p, q, v);
    ProductNonZero(r, p);
  }

  lemma TrailInField(L: Library, t: CeremonyTranscript, f: Factor)
    requires ProperTranscript(L, t)
    ensures AllInField(L.r, Olds(t, f)) && AllInField(L.r, SecretTrail(t, f))
  {
    forall i | 0 <= i < |t.snapshots| ensures InField(L.r, Secret(Visible(t.snapshots[i]), f)) {
      assert Proper(L, t.snapshots[i]);
    }
    forall i | 0 <= i < |t.contributions| ensures InField(L.r, Old(t.contributions[i].proof, f)) {
      assert ProofInField(L.r, t.contributions[i].proof);
    }
  }

  /** The cross-product form leaves one value for a final secret. */
  lemma RatioDetermines(r: Modulus, p: int, q: int, x: int, y: int)
    requires IsPrime(r) && InField(r, p) && p != 0 && InField(r, x) && InField(r, y)
    requires Mul(r, p, x) == q && Mul(r, p, y) == q
    ensures x == y
  {
    MulComm(r, p, x);
    MulComm(r, p, y);
    MulCancel(r, x, y, p);
  }

  // ------------------------------------------------------------------------ panics

  function Verdicts(L: Library, t: CeremonyTranscript): int -> Verdict {
    j => if 0 <= j < |t.snapshots| == |t.contributions| then RecordVerdict(L, j, t.contributions[j], t.snapshots[j])
         else Accepted
  }

  /** The first verdict from `i` on, among `n`, that is no acceptance is a panic. */
  ghost predicate PanicsFrom(v: int -> Verdict, i: int, n: int) {
    exists j :: PanicsAt(v, i, j, n)
  }

  ghost predicate PanicsAt(v: int -> Verdict, i: int, j: int, n: int) {
    i <= j < n && v(j) == Panicked && forall k :: i <= k < j ==> v(k) == Accepted
  }

  lemma PanicStep(v: int -> Verdict, i: int, next: int, n: int)
    requires i < n && next == i + 1
    ensures PanicsFrom(v, i, n) <==> v(i) == Panicked || (v(i) == Accepted && PanicsFrom(v, next, n))
  {
    if v(i) == Accepted && PanicsFrom(v, next, n) {
      var j :| PanicsAt(v, next, j, n);
      assert PanicsAt(v, i, j, n);
    }
    if v(i) == Panicked {
      assert PanicsAt(v, i, i, n);
    }
    if PanicsFrom(v, i, n) && v(i) == Accepted {
      var j :| PanicsAt(v, i, j, n);
      assert PanicsAt(v, next, j, n);
    }
  }

  lemma {:induction false} RecordsPanic(L: Library, t: CeremonyTranscript, i: nat)
    requires |t.contributions| == |t.snapshots| && i <= |t.snapshots|
    ensures RecordsVerdict(L, t, i) == Panicked <==> PanicsFrom(Verdicts(L, t), i, |t.snapshots|)
    decreases |t.snapshots| - i
  {
    if i < |t.snapshots| {
      RecordsPanic(L, t, i + 1);
      PanicStep(Verdicts(L, t), i, i + 1, |t.snapshots|);
    }
  }

  lemma AcceptedStartsStep(L: Library, t: CeremonyTranscript, k: nat, after: PowersOfTau, p: ContributionProof)
    requires k < |t.snapshots| == |t.contributions|
    requires RecordVerdict(L, k, t.contributions[k], t.snapshots[k]) == Accepted
    ensures VerifyContribution(L.r, t.snapshots[k], after, p) != Panicked
  {
  }

  lemma {:induction false} StepsNeverPanic(L: Library, t: CeremonyTranscript, i: nat)
    requires |t.contributions| == |t.snapshots| && 1 <= i <= |t.snapshots|
    requires forall k :: 0 <= k < |t.snapshots| ==> RecordVerdict(L, k, t.contributions[k], t.snapshots[k]) == Accepted
    ensures StepsVerdict(L, t, i) != Panicked
    decreases |t.snapshots| - i
  {
    if i < |t.snapshots| {
      StepsNeverPanic(L, t, i + 1);
      AcceptedStartsStep(L, t, i - 1, t.snapshots[i], t.contributions[i].proof);
    }
  }

  /** The transcript check panics exactly at a record whose consistency check does, after
      accepted ones; its step checks never do. */
  lemma TranscriptPanics(L: Library, t: CeremonyTranscript, finalSrs: PowersOfTau)
    ensures VerifyTranscript(L, t, finalSrs) == Panicked <==>
      |t.contributions| == |t.snapshots| && PanicsFrom(Verdicts(L, t), 0, |t.snapshots|)
  {
    if |t.contributions| == |t.snapshots| {
      RecordsPanic(L, t, 0);
      RecordsAccepted(L, t, 0);
      if t.snapshots != [] && RecordsVerdict(L, t, 0) == Accepted {
        StepsNeverPanic(L, t, 1);
      }
    }
  }

  // --------------------------------------------------------------- honest runs

  function Factors(draws: seq<Draw>, f: Factor): (xs: seq<int>)
    ensures |xs| == |draws|
  {
    seq(|draws|, i requires 0 <= i < |draws| =>
      match f case TauFactor => draws[i].tau case AlphaFactor => draws[i].alpha case BetaFactor => draws[i].beta)
  }

  ghost predicate HonestDraws(r: Modulus, draws: seq<Draw>) {
    forall i :: 0 <= i < |draws| ==> DrawInField(r, draws[i]) && NonZeroDraw(draws[i])
  }

  ghost predicate Sized(srs: PowersOfTau, degree: nat)
    requires degree >= 1
  {
    |srs.tauG1| == 2 * degree - 1 && |srs.tauG2| == degree
    && |srs.alphaTauG1| == degree && |srs.betaTauG1| == degree
  }

  /** The string that draw `k` produces from the one before. */
  function Drawn(r: Modulus, degree: nat, draws: seq<Draw>, snapshots: seq<PowersOfTau>, k: nat): PowersOfTau
    requires degree >= 1 && k < |draws| && k <= |snapshots|
  {
    if k == 0 then Initial(r, degree, draws[0]) else Contributed(r, snapshots[k - 1], draws[k])
  }

  /** Entry `k` of the transcript is what an honest run with these draws records. */
  ghost predicate HonestAt(L: Library, degree: nat, draws: seq<Draw>, t: CeremonyTranscript, k: nat)
    requires degree >= 1 && k < |draws| && k < |t.contributions| && k < |t.snapshots|
  {
    t.snapshots[k] == Drawn(L.r, degree, draws, t.snapshots, k)
    && t.contributions[k] == Record(k, ProofOf(L.r, draws[k]), HashOf(L, t.snapshots[k]))
  }

  ghost predicate HonestUpTo(L: Library, degree: nat, draws: seq<Draw>, t: CeremonyTranscript, n: nat)
    requires degree >= 1 && n <= |draws|
  {
    |t.contributions| == n == |t.snapshots| && forall k: nat :: k < n ==> HonestAt(L, degree, draws, t, k)
  }

  /** The transcript of an honest run, which it determines. */
  ghost predicate HonestRun(L: Library, degree: nat, draws: seq<Draw>, t: CeremonyTranscript) {
    degree >= 2 && draws != [] && HonestDraws(L.r, draws) && HonestUpTo(L, degree, draws, t, |draws|)
  }

  /** The string of the products of all factors. */
  ghost predicate ProductsOf(r: Modulus, srs: PowersOfTau, draws: seq<Draw>) {
    Exact(r, srs, Product(r, Factors(draws, TauFactor)), Product(r, Factors(draws, AlphaFactor)),
          Product(r, Factors(draws, BetaFactor)))
  }

  lemma FirstDraw(r: Modulus, degree: nat, d: Draw)
    requires degree >= 1 && DrawInField(r, d) && NonZeroDraw(d)
    ensures ProductsOf(r, Initial(r, degree, d), [d]) && Sized(Initial(r, degree, d), degree)
  {
    InitialIsExact(r, degree, d);
    SingleProduct(r, [d], TauFactor);
    SingleProduct(r, [d], AlphaFactor);
    SingleProduct(r, [d], BetaFactor);
  }

  lemma NextDraw(r: Modulus, degree: nat, srs: PowersOfTau, draws: seq<Draw>)
    requires IsPrime(r) && degree >= 1 && draws != []
    requires ProductsOf(r, srs, draws[..|draws| - 1]) && Sized(srs, degree)
    requires var d := draws[|draws| - 1]; DrawInField(r, d) && NonZeroDraw(d)
    ensures var next := Contributed(r, srs, draws[|draws| - 1]); ProductsOf(r, next, draws) && Sized(next, degree)
  {
    var before := draws[..|draws| - 1];
    ContributionMultiplies(r, srs, Product(r, Factors(before, TauFactor)), Product(r, Factors(before, AlphaFactor)),
                           Product(r, Factors(before, BetaFactor)), draws[|draws| - 1]);
    LastFactor(r, draws, TauFactor);
    LastFactor(r, draws, AlphaFactor);
    LastFactor(r, draws, BetaFactor);
  }

  /** The string of the products of the first `n` draws, of the run's size. */
  ghost predicate AfterDraws(r: Modulus, degree: nat, srs: PowersOfTau, draws: seq<Draw>, n: nat)
    requires degree >= 1 && n <= |draws|
  {
    ProductsOf(r, srs, draws[..n]) && Sized(srs, degree)
  }

  lemma AfterFirst(r: Modulus, degree: nat, draws: seq<Draw>)
    requires degree >= 1 && draws != [] && HonestDraws(r, draws)
    ensures AfterDraws(r, degree, Initial(r, degree, draws[0]), draws, 1)
  {
    FirstDraw(r, degree, draws[0]);
    assert draws[..1] == [draws[0]];
  }

  lemma AfterNext(r: Modulus, degree: nat, srs: PowersOfTau, draws: seq<Draw>, n: nat)
    requires IsPrime(r) && degree >= 1 && n < |draws| && HonestDraws(r, draws)
    requires AfterDraws(r, degree, srs, draws, n)
    ensures AfterDraws(r, degree, Contributed(r, srs, draws[n]), draws, n + 1)
  {
    assert draws[..n + 1][..n] == draws[..n];
    NextDraw(r, degree, srs, draws[..n + 1]);
  }

  lemma DrawnAfter(L: Library, degree: nat, draws: seq<Draw>, t: CeremonyTranscript, k: nat)
    requires IsPrime(L.r) && degree >= 1 && HonestDraws(L.r, draws)
    requires k < |draws| && k < |t.contributions| && k < |t.snapshots| && HonestAt(L, degree, draws, t, k)
    requires k > 0 ==> AfterDraws(L.r, degree, t.snapshots[k - 1], draws, k)
    ensures AfterDraws(L.r, degree, t.snapshots[k], draws, k + 1)
  {
    if k == 0 {
      AfterFirst(L.r, degree, draws);
    } else {
      AfterNext(L.r, degree, t.snapshots[k - 1], draws, k);
    }
  }

  /** Every snapshot of an honest run is the string of the products of the factors so far. */
  lemma {:induction false} HonestRunMultiplies(L: Library, degree: nat, draws: seq<Draw>, t: CeremonyTranscript, k: nat)
    requires IsPrime(L.r) && HonestRun(L, degree, draws, t) && k < |draws|
    ensures AfterDraws(L.r, degree, t.snapshots[k], draws, k + 1)
  {
    if k > 0 {
      HonestRunMultiplies(L, degree, draws, t, k - 1);
    }
    DrawnAfter(L, degree, draws, t, k);
  }

  lemma SingleProduct(r: Modulus, draws: seq<Draw>, f: Factor)
    requires |draws| == 1 && DrawInField(r, draws[0])
    ensures Product(r, Factors(draws, f)) == Factors(draws, f)[0]
  {
    MulOne(r, Factors(draws, f)[0]);
    assert Factors(draws, f)[..0] == [];
  }

  lemma LastFactor(r: Modulus, draws: seq<Draw>, f: Factor)
    requires draws != []
    ensures Product(r, Factors(draws, f))
         == Mul(r, Factors(draws, f)[|draws| - 1], Product(r, Factors(draws[..|draws| - 1], f)))
  {
    var n := |draws| - 1;
    assert Factors(draws, f)[..n] == Factors(draws[..n], f);
    MulComm(r, Product(r, Factors(draws[..n], f)), Factors(draws, f)[n]);
  }

  lemma ProductsPass(r: Modulus, degree: nat, srs: PowersOfTau, draws: seq<Draw>)
    requires IsPrime(r) && degree >= 2 && ProductsOf(r, srs, draws) && Sized(srs, degree)
    ensures VerifyConsistency(r, srs) == Accepted
  {
    ExactEntries(r, srs, Product(r, Factors(draws, TauFactor)), Product(r, Factors(draws, AlphaFactor)),
                 Product(r, Factors(draws, BetaFactor)));
    ConsistentIffSecrets(r, srs);
  }

  lemma ProductsContribute(r: Modulus, degree: nat, srs: PowersOfTau, draws: seq<Draw>, d: Draw)
    requires IsPrime(r) && degree >= 2 && ProductsOf(r, srs, draws) && Sized(srs, degree)
    requires DrawInField(r, d) && NonZeroDraw(d)
    ensures VerifyContribution(r, srs, Contributed(r, srs, d), ProofOf(r, d)) == Accepted
  {
    HonestContribution(r, srs, Product(r, Factors(draws, TauFactor)), Product(r, Factors(draws, AlphaFactor)),
                       Product(r, Factors(draws, BetaFactor)), d);
  }

  lemma HonestRecord(L: Library, degree: nat, draws: seq<Draw>, t: CeremonyTranscript, k: nat)
    requires IsPrime(L.r) && HonestRun(L, degree, draws, t) && k < |draws|
    ensures RecordVerdict(L, k, t.contributions[k], t.snapshots[k]) == Accepted
  {
    assert HonestAt(L, degree, draws, t, k);
    HonestRunMultiplies(L, degree, draws, t, k);
    ProductsPass(L.r, degree, t.snapshots[k], draws[..k + 1]);
  }

  lemma HonestStep(L: Library, degree: nat, draws: seq<Draw>, t: CeremonyTranscript, k: nat)
    requires IsPrime(L.r) && HonestRun(L, degree, draws, t) && 1 <= k < |draws|
    ensures StepOk(L, t, k)
  {
    assert HonestAt(L, degree, draws, t, k);
    HonestRunMultiplies(L, degree, draws, t, k - 1);
    ProductsContribute(L.r, degree, t.snapshots[k - 1], draws[..k], draws[k]);
  }

  lemma HonestFirst(L: Library, degree: nat, draws: seq<Draw>, t: CeremonyTranscript)
    requires IsPrime(L.r) && HonestRun(L, degree, draws, t)
    ensures VerifyInitial(L.r, t.snapshots[0], t.contributions[0].proof) == Accepted
  {
    assert HonestAt(L, degree, draws, t, 0);
    HonestInitial(L.r, degree, draws[0]);
  }

  lemma HonestRecords(L: Library, degree: nat, draws: seq<Draw>, t: CeremonyTranscript)
    requires IsPrime(L.r) && HonestRun(L, degree, draws, t)
    ensures RecordsVerdict(L, t, 0) == Accepted
  {
    forall k | 0 <= k < |t.snapshots| ensures RecordVerdict(L, k, t.contributions[k], t.snapshots[k]) == Accepted {
      HonestRecord(L, degree, draws, t, k);
    }
    RecordsAccepted(L, t, 0);
  }

  lemma HonestSteps(L: Library, degree: nat, draws: seq<Draw>, t: CeremonyTranscript)
    requires IsPrime(L.r) && HonestRun(L, degree, draws, t)
    ensures StepsVerdict(L, t, 1) == Accepted
  {
    forall k | 1 <= k < |t.snapshots| ensures StepOk(L, t, k) {
      HonestStep(L, degree, draws, t, k);
    }
    StepsAccepted(L, t, 1);
  }

  /** The transcript of an honest run verifies, for any number of participants. */
  lemma HonestRunVerifies(L: Library, degree: nat, draws: seq<Draw>, t: CeremonyTranscript)
    requires IsPrime(L.r) && HonestRun(L, degree, draws, t)
    ensures VerifyTranscript(L, t, t.snapshots[|draws| - 1]) == Accepted
  {
    HonestRecords(L, degree, draws, t);
    HonestFirst(L, degree, draws, t);
    HonestSteps(L, degree, draws, t);
    AcceptanceParts(L, t, t.snapshots[|draws| - 1]);
  }

  lemma HonestExtend(L: Library, degree: nat, draws: seq<Draw>, t: CeremonyTranscript, srs: PowersOfTau, record: Record)
    requires degree >= 1 && |t.snapshots| < |draws| && HonestUpTo(L, degree, draws, t, |t.snapshots|)
    requires srs == Drawn(L.r, degree, draws, t.snapshots, |t.snapshots|)
    requires record == Record(|t.snapshots|, ProofOf(L.r, draws[|t.snapshots|]), HashOf(L, srs))
    ensures HonestUpTo(L, degree, draws, CeremonyTranscript(t.contributions + [record], t.snapshots + [srs]),
                       |t.snapshots| + 1)
  {
    var n := |t.snapshots|;
    var t' := CeremonyTranscript(t.contributions + [record], t.snapshots + [srs]);
    forall k: nat | k < n + 1 ensures HonestAt(L, degree, draws, t', k) {
      if k < n {
        assert HonestAt(L, degree, draws, t, k);
        HonestStays(L, degree, draws, t, t', k);
      } else {
        DrawnStays(L.r, degree, draws, t.snapshots, t'.snapshots, n);
      }
    }
  }

  lemma DrawnStays(r: Modulus, degree: nat, draws: seq<Draw>, a: seq<PowersOfTau>, b: seq<PowersOfTau>, k: nat)
    requires degree >= 1 && k < |draws| && k <= |a| <= |b| && a == b[..|a|]
    ensures Drawn(r, degree, draws, b, k) == Drawn(r, degree, draws, a, k)
  {
    assert k > 0 ==> b[k - 1] == a[k - 1];
  }

  lemma HonestStays(L: Library, degree: nat, draws: seq<Draw>, t: CeremonyTranscript, t': CeremonyTranscript, k: nat)
    requires degree >= 1 && k < |draws| && k < |t.contributions| && k < |t.snapshots| && HonestAt(L, degree, draws, t, k)
    requires |t.contributions| <= |t'.contributions| && t.contributions == t'.contributions[..|t.contributions|]
    requires |t.snapshots| <= |t'.snapshots| && t.snapshots == t'.snapshots[..|t.snapshots|]
    ensures HonestAt(L, degree, draws, t', k)
  {
    DrawnStays(L.r, degree, draws, t.snapshots, t'.snapshots, k);
    assert t'.snapshots[k] == t.snapshots[k] && t'.contributions[k] == t.contributions[k];
  }

  /** One more participant, with the assertion of the source in place. */
  method RunOnce(L: Library, degree: nat, draws: seq<Draw>, srs: PowersOfTau, t: CeremonyTranscript)
    returns (srs': PowersOfTau, t': CeremonyTranscript)
    requires IsPrime(L.r) && degree >= 2 && HonestDraws(L.r, draws) && 1 <= |t.snapshots| < |draws|
    requires HonestUpTo(L, degree, draws, t, |t.snapshots|) && srs == t.snapshots[|t.snapshots| - 1]
    requires AfterDraws(L.r, degree, srs, draws, |t.snapshots|)
    ensures HonestUpTo(L, degree, draws, t', |t.snapshots| + 1) && srs' == t'.snapshots[|t.snapshots|]
    ensures AfterDraws(L.r, degree, srs', draws, |t.snapshots| + 1)
  {
    var i := |t.snapshots|;
    var proof;
    srs', proof := Contribute(L.r, srs, draws[i]);
    ProductsContribute(L.r, degree, srs, draws[..i], draws[i]);
    assert VerifyContribution(L.r, srs, srs', proof) == Accepted;
    AfterNext(L.r, degree, srs, draws, i);
    var digest := HashSrs(L, srs');
    HonestExtend(L, degree, draws, t, srs', Record(i, proof, digest));
    t' := CeremonyTranscript(t.contributions + [Record(i, proof, digest)], t.snapshots + [srs']);
  }

  method RunFirst(L: Library, degree: nat, draws: seq<Draw>) returns (srs: PowersOfTau, t: CeremonyTranscript)
    requires IsPrime(L.r) && degree >= 2 && draws != [] && HonestDraws(L.r, draws)
    ensures HonestUpTo(L, degree, draws, t, 1) && srs == t.snapshots[0]
    ensures AfterDraws(L.r, degree, srs, draws, 1)
  {
    var proof;
    srs, proof := Initialize(L.r, degree, draws[0]);
    var digest := HashSrs(L, srs);
    AfterFirst(L.r, degree, draws);
    HonestExtend(L, degree, draws, CeremonyTranscript([], []), srs, Record(0, proof, digest));
    t := CeremonyTranscript([] + [Record(0, proof, digest)], [] + [srs]);
  }

  /** The run: with nonzero draws none of its assertions trips, and what it returns passes
      the public verification. */
  method RunCeremony(L: Library, tier: Tier, draws: seq<Draw>) returns (srs: PowersOfTau, t: CeremonyTranscript)
    requires IsPrime(L.r) && draws != [] && HonestDraws(L.r, draws)
    ensures HonestRun(L, RequiredDegree(tier), draws, t)
    ensures VerifyTranscript(L, t, srs) == Accepted
    ensures ProductsOf(L.r, srs, draws)
    ensures |srs.tauG1| == match tier case Small => 4095 case Medium => 8191 case Large => 8191
    ensures |srs.tauG2| == |srs.alphaTauG1| == |srs.betaTauG1|
      == match tier case Small => 2048 case Medium => 4096 case Large => 4096
  {
    var degree := RequiredDegree(tier);
    srs, t := RunFirst(L, degree, draws);
    for i := 1 to |draws|
      invariant HonestUpTo(L, degree, draws, t, i) && srs == t.snapshots[i - 1]
      invariant AfterDraws(L.r, degree, srs, draws, i)
    {
      srs, t := RunOnce(L, degree, draws, srs, t);
    }
    assert draws[..|draws|] == draws;
    ProductsPass(L.r, degree, srs, draws);
    var verdict := CheckConsistency(L.r, srs);
    assert verdict == Accepted;
    HonestRunVerifies(L, degree, draws, t);
  }
}
