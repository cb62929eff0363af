/** What the rounds table of a coordinator shows in every reachable state. */
module ChainIntegrity {
  import opened PrimeField
  import opened Bytes
  import opened Results
  import opened Text
  import opened Ceremony
  import opened SrsCodec
  import opened Transcript
  import opened CeremonyTool
  import opened RoundChain
  import opened Stepwise

  /** One link of the chain: what the round before sent, what was fetched for it, what the
      round sent, and the proof between the last two. */
  datatype Link = Link(prev: Loaded, before: Loaded, after: Loaded, proof: ContributionProof)

  ghost predicate IsLink(h: Host, g: Ledger, tier: Tier, n: int, k: Link) {
    (tier, n) in g.history && (tier, n - 1) in g.history && g.history[(tier, n)].fetched.Some?
    && Opened(h, g.history[(tier, n - 1)].sent) == Some(k.prev)
    && Opened(h, g.history[(tier, n)].fetched.value) == Some(k.before)
    && Opened(h, g.history[(tier, n)].sent) == Some(k.after)
    && Linked(h.L, k.before, k.after, k.proof)
    && BlobKey(h, g.history[(tier, n)].fetched.value.stateSrs) == HexEncode(HashOf(h.L, k.prev.srs))
    && BlobKey(h, g.history[(tier, n)].fetched.value.stateTxt) == BlobKey(h, g.history[(tier, n - 1)].sent.stateTxt)
  }

  lemma RowFacts(h: Host, g: Ledger, tier: Tier, n: int)
    requires ChainInv(h, g) && (tier, n) in g.store.rounds
    ensures (tier, n) in g.history
    ensures RowOk(h, tier, n, g.store.rounds[(tier, n)], RowBefore(g.store.rounds, tier, n), g.history[(tier, n)])
  {
    assert Rule(h)(tier, n, g.store.rounds[(tier, n)], RowBefore(g.store.rounds, tier, n), g.history[(tier, n)]);
  }

  lemma LinkAt(h: Host, g: Ledger, tier: Tier, n: int) returns (k: Link)
    requires ChainInv(h, g) && (tier, n) in g.store.rounds && n != 0
    ensures IsLink(h, g, tier, n, k)
  {
    RowFacts(h, g, tier, n);
    RowFacts(h, g, tier, n - 1);
    k := LinkFrom(h, g, tier, n, g.store.rounds[(tier, n - 1)], g.store.rounds[(tier, n)]);
  }

  lemma LinkFrom(h: Host, g: Ledger, tier: Tier, n: int, prev: Round, row: Round) returns (k: Link)
    requires (tier, n) in g.history && (tier, n - 1) in g.history
    requires Named(h, prev, g.history[(tier, n - 1)].sent)
    requires Chained(h, prev, row, n, g.history[(tier, n)])
    ensures IsLink(h, g, tier, n, k)
  {
    var e := g.history[(tier, n)];
    var b, a := Opened(h, e.fetched.value).value, Opened(h, e.sent).value;
    var proof :| Linked(h.L, b, a, proof);
    k := Link(Opened(h, g.history[(tier, n - 1)].sent).value, b, a, proof);
  }

  lemma OpenedParts(h: Host, files: Files, l: Loaded)
    requires Sound(h.L) && Opened(h, files) == Some(l)
    ensures Decode(h.L, files.stateSrs) == Ok(l.srs) && Proper(h.L, l.srs)
    ensures h.fromUtf8(files.stateTxt).Some? && ReadKv(h.fromUtf8(files.stateTxt).value) == Ok(l.state)
  {
    ImportedIsProper(h.L, files.stateSrs);
  }

  /** The SRS blob fetched for a round is not the string committed the round before. */
  ghost predicate SrsClash(h: Host, g: Ledger, tier: Tier, n: int) {
    exists k :: IsLink(h, g, tier, n, k)
             && ShaCollision(h.L, g.history[(tier, n)].fetched.value.stateSrs, Encode(h.L, k.prev.srs))
  }

  /** The state file fetched for a round is not the one sent the round before. */
  ghost predicate TextClash(h: Host, g: Ledger, tier: Tier, n: int) {
    (tier, n) in g.history && (tier, n - 1) in g.history && g.history[(tier, n)].fetched.Some?
    && ShaCollision(h.L, g.history[(tier, n)].fetched.value.stateTxt, g.history[(tier, n - 1)].sent.stateTxt)
  }

  lemma FetchedSrs(h: Host, fetched: Files, b: Loaded, sent: Files, prev: Loaded)
    requires Sound(h.L) && Opened(h, fetched) == Some(b) && Opened(h, sent) == Some(prev)
    requires BlobKey(h, fetched.stateSrs) == HexEncode(HashOf(h.L, prev.srs))
    ensures b.srs == prev.srs || ShaCollision(h.L, fetched.stateSrs, Encode(h.L, prev.srs))
  {
    OpenedParts(h, fetched, b);
    OpenedParts(h, sent, prev);
    HexInjective(h.L.sha(fetched.stateSrs), HashOf(h.L, prev.srs));
    BlobUnderHash(h.L, prev.srs, fetched.stateSrs);
  }

  lemma FetchedText(h: Host, fetched: Files, b: Loaded, sent: Files, prev: Loaded)
    requires Sound(h.L) && Opened(h, fetched) == Some(b) && Opened(h, sent) == Some(prev)
    requires BlobKey(h, fetched.stateTxt) == BlobKey(h, sent.stateTxt)
    ensures b.state == prev.state || ShaCollision(h.L, fetched.stateTxt, sent.stateTxt)
  {
    OpenedParts(h, fetched, b);
    OpenedParts(h, sent, prev);
    HexInjective(h.L.sha(fetched.stateTxt), h.L.sha(sent.stateTxt));
  }

  /** What was fetched is what was committed, up to a collision of the two byte strings. */
  lemma FetchedIsPrev(h: Host, g: Ledger, tier: Tier, n: int, k: Link)
    requires Sound(h.L) && IsLink(h, g, tier, n, k)
    ensures k.before.srs == k.prev.srs || SrsClash(h, g, tier, n)
    ensures k.before.state == k.prev.state || TextClash(h, g, tier, n)
  {
    var fetched, sent := g.history[(tier, n)].fetched.value, g.history[(tier, n - 1)].sent;
    FetchedSrs(h, fetched, k.before, sent, k.prev);
    FetchedText(h, fetched, k.before, sent, k.prev);
  }

  // ------------------------------------------------------------------ the numbers

  ghost predicate HasLink(h: Host, g: Ledger, tier: Tier, n: int) {
    exists k :: IsLink(h, g, tier, n, k)
  }

  /** The rounds of a tier are exactly 0 to some head, and each later one is linked to the
      one before it. */
  lemma RoundsAreAChain(h: Host, g: Ledger, tier: Tier) returns (head: int)
    requires ChainInv(h, g)
    ensures Exactly(g.store.rounds, tier, head)
    ensures forall n :: 1 <= n <= head ==> HasLink(h, g, tier, n)
  {
    assert Contiguous(g.store.rounds, tier);
    head :| Exactly(g.store.rounds, tier, head);
    forall n | 1 <= n <= head ensures HasLink(h, g, tier, n) {
      var k := LinkAt(h, g, tier, n);
    }
  }

  // ------------------------------------------------------------- tier and circuit

  ghost predicate Names(h: Host, g: Ledger, tier: Tier, n: int) {
    (tier, n) in g.history && Opened(h, g.history[(tier, n)].sent).Some?
    && var state := Opened(h, g.history[(tier, n)].sent).value.state;
       Has(state, "tier", TierName(tier)) && Has(state, "circuit_id", HexEncode(h.circuitId(tier)))
  }

  lemma SeedNames(h: Host, g: Ledger, tier: Tier)
    requires SoundHost(h) && ChainInv(h, g) && (tier, 0) in g.store.rounds
    ensures Names(h, g, tier, 0)
  {
    RowFacts(h, g, tier, 0);
    var e := g.history[(tier, 0)];
    var d, createdAt :| DrawInField(h.L.r, d) && '\n' !in createdAt && SeedFiles(h, tier, d, createdAt) == Ok(e.sent);
    var loaded := SeedOpens(h, tier, d, createdAt, e.sent);
  }

  lemma LinkedNames(h: Host, g: Ledger, tier: Tier, n: int, k: Link)
    requires IsLink(h, g, tier, n, k) && Names(h, g, tier, n - 1) && k.before.state == k.prev.state
    ensures Names(h, g, tier, n)
  {
  }

  lemma NamesStep(h: Host, g: Ledger, tier: Tier, n: int)
    requires Sound(h.L) && ChainInv(h, g) && (tier, n) in g.store.rounds && n != 0
    requires Names(h, g, tier, n - 1) && !TextClash(h, g, tier, n)
    ensures Names(h, g, tier, n)
  {
    var k := LinkAt(h, g, tier, n);
    FetchedIsPrev(h, g, tier, n, k);
    LinkedNames(h, g, tier, n, k);
  }

  /** Every round carries its own tier's name and its tier's circuit id, although the upload
      handler compares neither, unless a state file collides under SHA-256. */
  lemma EveryRoundNames(h: Host, g: Ledger, tier: Tier, head: int, n: nat)
    requires SoundHost(h) && ChainInv(h, g) && Exactly(g.store.rounds, tier, head) && n <= head
    ensures Names(h, g, tier, n) || exists m :: 1 <= m <= n && TextClash(h, g, tier, m)
  {
    var holds, breaks := NamesOf(h, g, tier), ClashOf(h, g, tier);
    SeedNames(h, g, tier);
    forall i | 1 <= i <= n ensures HandsOn(holds, breaks, i) {
      NamesHandOn(h, g, tier, i);
    }
    HandedOn(holds, breaks, n);
    if !holds(n) {
      var m :| 1 <= m <= n && breaks(m);
      assert TextClash(h, g, tier, m);
    }
  }

  ghost function NamesOf(h: Host, g: Ledger, tier: Tier): int -> bool {
    i => Names(h, g, tier, i)
  }

  ghost function ClashOf(h: Host, g: Ledger, tier: Tier): int -> bool {
    i => TextClash(h, g, tier, i)
  }

  lemma NamesHandOn(h: Host, g: Ledger, tier: Tier, i: int)
    requires Sound(h.L) && ChainInv(h, g) && (tier, i) in g.store.rounds && i != 0
    ensures HandsOn(NamesOf(h, g, tier), ClashOf(h, g, tier), i)
  {
    if Names(h, g, tier, i - 1) && !TextClash(h, g, tier, i) {
      NamesStep(h, g, tier, i);
    }
  }

  // ------------------------------------------------------------------- the secrets

  /** The string committed in a round. */
  function SrsAt(h: Host, g: Ledger, tier: Tier, n: int): PowersOfTau {
    if (tier, n) in g.history && Opened(h, g.history[(tier, n)].sent).Some?
    then Opened(h, g.history[(tier, n)].sent).value.srs else PowersOfTau([], [], [], [], 0)
  }

  /** The proof in a round's receipt. */
  function ProofAt(h: Host, g: Ledger, tier: Tier, n: int): ContributionProof {
    var none := ContributionProof((0, 0), (0, 0), (0, 0));
    if (tier, n) in g.history && Opened(h, g.history[(tier, n)].sent).Some?
    then match ProofFrom(h.L, Opened(h, g.history[(tier, n)].sent).value.receipt) case Ok(p) => p case Err(_) => none
    else none
  }

  lemma PointInField(r: Modulus, dec: seq<byte> -> Option<int>, len: nat, receipt: Kv, key: string)
    requires forall b :: dec(b).Some? ==> InField(r, dec(b).value)
    ensures PointAt(dec, len, receipt, key).Ok? ==> InField(r, PointAt(dec, len, receipt, key).value)
  {
  }

  lemma ProofFromInField(L: Library, receipt: Kv)
    requires Sound(L) && ProofFrom(L, receipt).Ok?
    ensures ProofInField(L.r, ProofFrom(L, receipt).value)
  {
    PointInField(L.r, L.decG1, G1_LEN, receipt, "tau_proof_g1");
    PointInField(L.r, L.decG1, G1_LEN, receipt, "tau_proof_delta_g1");
    PointInField(L.r, L.decG2, G2_LEN, receipt, "alpha_proof_g2");
    PointInField(L.r, L.decG2, G2_LEN, receipt, "alpha_proof_delta_g2");
    PointInField(L.r, L.decG1, G1_LEN, receipt, "beta_proof_g1");
    PointInField(L.r, L.decG1, G1_LEN, receipt, "beta_proof_delta_g1");
  }

  ghost predicate StepFits(r: Modulus, before: PowersOfTau, after: PowersOfTau, p: ContributionProof) {
    Ratios(r, p, Visible(before), Visible(after)) && SrsInField(r, before) && SrsInField(r, after) && ProofInField(r, p)
  }

  lemma RoundStep(h: Host, g: Ledger, tier: Tier, n: int)
    requires SoundHost(h) && ChainInv(h, g) && (tier, n) in g.store.rounds && n != 0 && !SrsClash(h, g, tier, n)
    ensures StepFits(h.L.r, SrsAt(h, g, tier, n - 1), SrsAt(h, g, tier, n), ProofAt(h, g, tier, n))
  {
    var k := LinkAt(h, g, tier, n);
    FetchedIsPrev(h, g, tier, n, k);
    LinkSteps(h, g, tier, n, k);
  }

  lemma LinkSteps(h: Host, g: Ledger, tier: Tier, n: int, k: Link)
    requires Sound(h.L) && IsLink(h, g, tier, n, k) && k.before.srs == k.prev.srs
    ensures StepFits(h.L.r, SrsAt(h, g, tier, n - 1), SrsAt(h, g, tier, n), ProofAt(h, g, tier, n))
  {
    AcceptedRatios(h.L.r, k.before.srs, k.after.srs, k.proof);
    ProofFromInField(h.L, k.after.receipt);
    OpenedParts(h, g.history[(tier, n - 1)].sent, k.prev);
    OpenedParts(h, g.history[(tier, n)].sent, k.after);
  }

  function OldPoints(proofs: seq<ContributionProof>, f: Factor): (xs: seq<int>)
    ensures |xs| == |proofs|
  {
    seq(|proofs|, i requires 0 <= i < |proofs| => Old(proofs[i], f))
  }

  function NewPoints(proofs: seq<ContributionProof>, f: Factor): (xs: seq<int>)
    ensures |xs| == |proofs|
  {
    seq(|proofs|, i requires 0 <= i < |proofs| => New(proofs[i], f))
  }

  function SecretsOf(strings: seq<PowersOfTau>, f: Factor): (xs: seq<int>)
    ensures |xs| == |strings|
  {
    seq(|strings|, i requires 0 <= i < |strings| => Secret(Visible(strings[i]), f))
  }

  /** The last secret in ratio to the first: the products of the proofs' points. */
  ghost predicate InRatio(r: Modulus, proofs: seq<ContributionProof>, first: PowersOfTau, last: PowersOfTau, f: Factor) {
    Product(r, OldPoints(proofs, f)) != 0
    && Mul(r, Product(r, OldPoints(proofs, f)), Secret(Visible(last), f))
    == Mul(r, Product(r, NewPoints(proofs, f)), Secret(Visible(first), f))
  }

  lemma StepsTelescope(r: Modulus, strings: seq<PowersOfTau>, proofs: seq<ContributionProof>, f: Factor)
    requires IsPrime(r) && |strings| == |proofs| + 1 && SrsInField(r, strings[0])
    requires forall i: nat :: i < |proofs| ==> StepAt(r, strings, proofs, i)
    ensures InRatio(r, proofs, strings[0], strings[|proofs|], f)
  {
    var p, q, v := OldPoints(proofs, f), NewPoints(proofs, f), SecretsOf(strings, f);
    forall i: nat | i < |p| ensures TrailStep(r, p, q, v, i) && InField(r, p[i]) && InField(r, v[i + 1]) {
      assert StepAt(r, strings, proofs, i);
      RatiosOf(r, proofs[i], Visible(strings[i]), Visible(strings[i + 1]), f);
    }
    forall i | 0 <= i < |v| ensures InField(r, v[i]) {
      if i > 0 {
        assert StepAt(r, strings, proofs, i - 1);
      }
    }
    TelescopeTrail(r, p, q, v);
  }

  ghost predicate StepAt(r: Modulus, strings: seq<PowersOfTau>, proofs: seq<ContributionProof>, i: nat)
    requires i < |proofs| && |strings| == |proofs| + 1
  {
    StepFits(r, strings[i], strings[i + 1], proofs[i])
  }

  function Strings(h: Host, g: Ledger, tier: Tier, head: nat): (srs: seq<PowersOfTau>)
    ensures |srs| == head + 1 && forall i :: 0 <= i <= head ==> srs[i] == SrsAt(h, g, tier, i)
  {
    seq(head + 1, i requires 0 <= i <= head => SrsAt(h, g, tier, i))
  }

  function Receipts(h: Host, g: Ledger, tier: Tier, head: nat): (proofs: seq<ContributionProof>)
    ensures |proofs| == head && forall i :: 0 <= i < head ==> proofs[i] == ProofAt(h, g, tier, i + 1)
  {
    seq(head, i requires 0 <= i < head => ProofAt(h, g, tier, i + 1))
  }

  /** Round 0 is the string of the seed's own nonzero draw. */
  lemma SeedString(h: Host, g: Ledger, tier: Tier) returns (d: Draw)
    requires IsPrime(h.L.r) && SoundHost(h) && ChainInv(h, g) && (tier, 0) in g.store.rounds
    ensures DrawInField(h.L.r, d) && NonZeroDraw(d)
    ensures SrsAt(h, g, tier, 0) == Initial(h.L.r, RequiredDegree(tier), d)
    ensures Visible(SrsAt(h, g, tier, 0)) == Secrets(d.tau, d.alpha, d.beta)
    ensures SrsInField(h.L.r, SrsAt(h, g, tier, 0))
  {
    RowFacts(h, g, tier, 0);
    var e := g.history[(tier, 0)];
    var draw, createdAt :|
      DrawInField(h.L.r, draw) && '\n' !in createdAt && SeedFiles(h, tier, draw, createdAt) == Ok(e.sent);
    d := draw;
    var loaded := SeedOpens(h, tier, d, createdAt, e.sent);
    SeedNonZero(h, tier, d, createdAt);
    InitialVisible(h.L.r, RequiredDegree(tier), d);
  }

  lemma SeedNonZero(h: Host, tier: Tier, d: Draw, createdAt: string)
    requires IsPrime(h.L.r) && DrawInField(h.L.r, d) && SeedFiles(h, tier, d, createdAt).Ok?
    ensures NonZeroDraw(d)
  {
    InitParts(h.L, tier, h.circuitId(tier), SEED_NAME, d, createdAt);
    HonestInitial(h.L.r, RequiredDegree(tier), d);
  }

  lemma InitialVisible(r: Modulus, degree: nat, d: Draw)
    requires degree >= 2 && DrawInField(r, d) && NonZeroDraw(d)
    ensures Visible(Initial(r, degree, d)) == Secrets(d.tau, d.alpha, d.beta)
    ensures SrsInField(r, Initial(r, degree, d))
  {
    InitialIsExact(r, degree, d);
    ExactEntries(r, Initial(r, degree, d), d.tau, d.alpha, d.beta);
  }

  lemma StepAtRound(h: Host, g: Ledger, tier: Tier, head: nat, i: nat)
    requires SoundHost(h) && ChainInv(h, g) && (tier, i + 1) in g.store.rounds && i < head
    requires !SrsClash(h, g, tier, i + 1)
    ensures StepAt(h.L.r, Strings(h, g, tier, head), Receipts(h, g, tier, head), i)
  {
    RoundStep(h, g, tier, i + 1);
  }

  ghost predicate AllInRatio(r: Modulus, proofs: seq<ContributionProof>, first: PowersOfTau, last: PowersOfTau) {
    forall f: Factor :: InRatio(r, proofs, first, last, f)
  }

  lemma AllTelescope(r: Modulus, strings: seq<PowersOfTau>, proofs: seq<ContributionProof>)
    requires IsPrime(r) && |strings| == |proofs| + 1 && SrsInField(r, strings[0])
    requires forall i: nat :: i < |proofs| ==> StepAt(r, strings, proofs, i)
    ensures AllInRatio(r, proofs, strings[0], strings[|proofs|])
  {
    forall f: Factor ensures InRatio(r, proofs, strings[0], strings[|proofs|], f) {
      StepsTelescope(r, strings, proofs, f);
    }
  }

  /** The three secrets that the head's string shows are those of round 0 multiplied through
      by every receipt's ratios, in cross-product form, unless some fetched SRS blob is a
      SHA-256 collision with the string committed before it. */
  lemma HeadSecrets(h: Host, g: Ledger, tier: Tier, head: nat)
    requires IsPrime(h.L.r) && SoundHost(h) && ChainInv(h, g) && Exactly(g.store.rounds, tier, head)
    ensures (exists m :: 1 <= m <= head && SrsClash(h, g, tier, m))
         || AllInRatio(h.L.r, Receipts(h, g, tier, head), SrsAt(h, g, tier, 0), SrsAt(h, g, tier, head))
  {
    if forall m :: 1 <= m <= head ==> !SrsClash(h, g, tier, m) {
      var strings, proofs := Strings(h, g, tier, head), Receipts(h, g, tier, head);
      forall i: nat | i < head ensures StepAt(h.L.r, strings, proofs, i) {
        StepAtRound(h, g, tier, head, i);
      }
      var d := SeedString(h, g, tier);
      AllTelescope(h.L.r, strings, proofs);
    }
  }

  /** Where the head's string also passes the consistency check, it is the string of the
      seed's draw multiplied through by every receipt's ratios, or a fetched blob collides. */
  lemma ConsistentHead(h: Host, g: Ledger, tier: Tier, head: nat) returns (d: Draw)
    requires IsPrime(h.L.r) && SoundHost(h) && ChainInv(h, g) && Exactly(g.store.rounds, tier, head)
    requires VerifyConsistency(h.L.r, SrsAt(h, g, tier, head)) == Accepted
    ensures DrawInField(h.L.r, d) && NonZeroDraw(d)
    ensures (exists m :: 1 <= m <= head && SrsClash(h, g, tier, m))
         || (exists s: Secrets :: Exact(h.L.r, SrsAt(h, g, tier, head), s.tau, s.alpha, s.beta)
               && forall f: Factor :: TimesRatios(h.L.r, Receipts(h, g, tier, head), d, s, f))
  {
    d := SeedString(h, g, tier);
    HeadSecrets(h, g, tier, head);
    HeadInField(h, g, tier, head);
    var last := SrsAt(h, g, tier, head);
    ConsistencyMeans(h.L.r, last);
    var s := Visible(last);
    if AllInRatio(h.L.r, Receipts(h, g, tier, head), SrsAt(h, g, tier, 0), last) {
      forall f: Factor ensures TimesRatios(h.L.r, Receipts(h, g, tier, head), d, s, f) {
        assert InRatio(h.L.r, Receipts(h, g, tier, head), SrsAt(h, g, tier, 0), last, f);
      }
    }
  }

  /** A secret that is the draw's times all the proofs' ratios, in cross-product form. */
  ghost predicate TimesRatios(r: Modulus, proofs: seq<ContributionProof>, d: Draw, s: Secrets, f: Factor) {
    Product(r, OldPoints(proofs, f)) != 0
    && Mul(r, Product(r, OldPoints(proofs, f)), Secret(s, f))
    == Mul(r, Product(r, NewPoints(proofs, f)), Secret(Secrets(d.tau, d.alpha, d.beta), f))
  }

  lemma HeadInField(h: Host, g: Ledger, tier: Tier, n: int)
    requires SoundHost(h) && ChainInv(h, g) && (tier, n) in g.store.rounds
    ensures SrsInField(h.L.r, SrsAt(h, g, tier, n))
  {
    RowFacts(h, g, tier, n);
    OpenedParts(h, g.history[(tier, n)].sent, Opened(h, g.history[(tier, n)].sent).value);
  }

  // --------------------------------------------------------- what the next round needs

  function SentBytes(files: Files): set<seq<byte>> {
    {files.stateSrs, files.stateTxt, files.receipt}
  }

  /** The canonical bytes of a string were stored before, or a sent file is them, or a sent
      file collides with them. */
  ghost predicate Served(h: Host, blobs: Blobs, sent: Files, srs: PowersOfTau) {
    HexEncode(HashOf(h.L, srs)) in blobs
    || exists x :: x in SentBytes(sent) && (x == Encode(h.L, srs) || ShaCollision(h.L, x, Encode(h.L, srs)))
  }

  lemma ServedAfterPut(h: Host, blobs: Blobs, sent: Files, srs: PowersOfTau)
    ensures HexEncode(HashOf(h.L, srs)) in PutAll(h, blobs, sent) <==> Served(h, blobs, sent, srs)
  {
    var canonical := Encode(h.L, srs);
    var key := HexEncode(HashOf(h.L, srs));
    forall x | x in SentBytes(sent)
      ensures BlobKey(h, x) == key <==> x == canonical || ShaCollision(h.L, x, canonical)
    {
      if BlobKey(h, x) == key {
        HexInjective(h.L.sha(x), h.L.sha(canonical));
      }
    }
    if key in PutAll(h, blobs, sent) && key !in blobs {
      assert exists x :: x in SentBytes(sent) && BlobKey(h, x) == key by {
        assert sent.stateSrs in SentBytes(sent) && sent.stateTxt in SentBytes(sent) && sent.receipt in SentBytes(sent);
      }
    }
  }

  /** An upload that passes the checks for a round that is not in the table yet. */
  ghost predicate Commits(h: Host, g: Ledger, tier: Tier, form: Form, p: Prepared) {
    CheckUpload(h, g.store.rounds, g.store.blobs, tier, form) == Ok(p) && (tier, p.round) !in g.store.rounds
  }

  lemma RecordedIs(h: Host, g: Ledger, tier: Tier, p: Prepared, now: int, eventId: Option<string>)
    requires "contribution_id" in p.state
    ensures Recorded(h, g, tier, Ok(p), now, eventId).store ==
      if (tier, p.round) in g.store.rounds then Store(g.store.rounds, PutAll(h, g.store.blobs, p.sent))
      else Store(g.store.rounds[(tier, p.round) := NewRow(h, p, now, eventId)], PutAll(h, g.store.blobs, p.sent))
  {
  }

  lemma FetchFinds(blobs: Blobs, row: Round)
    requires Fetch(blobs, row).Ok?
    ensures row.srsHash in blobs
  {
  }

  lemma NewRowNames(h: Host, p: Prepared, a: Loaded, now: int, eventId: Option<string>)
    requires "contribution_id" in p.state && Opened(h, p.sent) == Some(a)
    requires Named(h, NewRow(h, p, now, eventId), p.sent)
    ensures NewRow(h, p, now, eventId).srsHash == HexEncode(HashOf(h.L, a.srs))
  {
  }

  lemma SeenNames(h: Host, rounds: Rounds, blobs: Blobs, tier: Tier, p: Prepared, b: Loaded, a: Loaded,
                  proof: ContributionProof, now: int, eventId: Option<string>)
    requires ContentAddressed(h, blobs) && Seen(h, rounds, blobs, tier, p, b, a, proof)
    requires Opened(h, p.fetched) == Some(b) && Opened(h, p.sent) == Some(a)
    requires forall key :: key in rounds ==> key.1 >= 0
    ensures "contribution_id" in p.state
    ensures NewRow(h, p, now, eventId).srsHash == HexEncode(HashOf(h.L, a.srs))
  {
    UploadLinks(h, rounds, blobs, tier, p, b, a, proof, now, eventId);
    NewRowNames(h, p, a, now, eventId);
  }

  lemma SeenFollows(h: Host, rounds: Rounds, blobs: Blobs, tier: Tier, p: Prepared, b: Loaded, a: Loaded,
                    proof: ContributionProof)
    requires Seen(h, rounds, blobs, tier, p, b, a, proof)
    requires forall key :: key in rounds ==> key.1 >= 0
    ensures p.round >= 1 && (tier, p.round - 1) in rounds && rounds[(tier, p.round - 1)].srsHash in blobs
  {
    RoundIsPositive(h, rounds, blobs, tier, p, b, a, proof);
    FetchFinds(blobs, p.prev);
  }

  /** What a passing upload names: its own string. */
  lemma PassedNames(h: Host, g: Ledger, tier: Tier, form: Form, now: int, eventId: Option<string>)
    returns (p: Prepared, a: Loaded)
    requires ChainInv(h, g) && CheckUpload(h, g.store.rounds, g.store.blobs, tier, form).Ok?
    ensures CheckUpload(h, g.store.rounds, g.store.blobs, tier, form) == Ok(p)
    ensures Opened(h, p.sent) == Some(a) && "contribution_id" in p.state
    ensures NewRow(h, p, now, eventId).srsHash == HexEncode(HashOf(h.L, a.srs))
  {
    var b, proof;
    p, b, a, proof := AcceptedUpload(h, g.store.rounds, g.store.blobs, tier, form);
    KeysNonNegative(g);
    SeenNames(h, g.store.rounds, g.store.blobs, tier, p, b, a, proof, now, eventId);
  }

  /** After a commit the blob that the next round will ask for is there exactly when the
      string's canonical bytes were stored before or by it, or a sent file collides. */
  lemma CommitServes(h: Host, g: Ledger, tier: Tier, form: Form, p: Prepared, now: int, eventId: Option<string>)
    returns (a: Loaded)
    requires ChainInv(h, g) && Commits(h, g, tier, form, p)
    ensures Opened(h, p.sent) == Some(a)
    ensures var s := Applied(h, g, Contribution(tier, form, now, eventId)).store;
      (tier, p.round) in s.rounds
      && (s.rounds[(tier, p.round)].srsHash in s.blobs <==> Served(h, g.store.blobs, p.sent, a.srs))
  {
    var q;
    q, a := PassedNames(h, g, tier, form, now, eventId);
    RecordedIs(h, g, tier, p, now, eventId);
    ServedAfterPut(h, g.store.blobs, p.sent, a.srs);
  }

  /** While the head's blob is missing no contribution, whatever it sends, adds a round. */
  lemma UnservedHeadStalls(h: Host, g: Ledger, tier: Tier, head: nat, form: Form, now: int, eventId: Option<string>)
    requires ChainInv(h, g) && Exactly(g.store.rounds, tier, head)
    requires g.store.rounds[(tier, head)].srsHash !in g.store.blobs
    ensures Applied(h, g, Contribution(tier, form, now, eventId)).store.rounds == g.store.rounds
    ensures var res := CheckUpload(h, g.store.rounds, g.store.blobs, tier, form); res.Ok? ==> res.value.round <= head
  {
    KeysNonNegative(g);
    var res := CheckUpload(h, g.store.rounds, g.store.blobs, tier, form);
    if res.Ok? {
      var p, b, a, proof := AcceptedUpload(h, g.store.rounds, g.store.blobs, tier, form);
      SeenBelow(h, g.store.rounds, g.store.blobs, tier, head, p, b, a, proof);
    }
    StalledRecord(h, g, tier, res, now, eventId);
  }

  lemma SeenBelow(h: Host, rounds: Rounds, blobs: Blobs, tier: Tier, head: nat, p: Prepared, b: Loaded, a: Loaded,
                  proof: ContributionProof)
    requires Seen(h, rounds, blobs, tier, p, b, a, proof)
    requires forall key :: key in rounds ==> key.1 >= 0
    requires Exactly(rounds, tier, head) && rounds[(tier, head)].srsHash !in blobs
    ensures p.round <= head && (tier, p.round) in rounds
  {
    SeenFollows(h, rounds, blobs, tier, p, b, a, proof);
  }

  lemma StalledRecord(h: Host, g: Ledger, tier: Tier, checked: Result<Prepared, HttpError>, now: int, eventId: Option<string>)
    requires checked.Ok? ==> (tier, checked.value.round) in g.store.rounds
    ensures Recorded(h, g, tier, checked, now, eventId).store.rounds == g.store.rounds
  {
  }

  /** The same upload with bytes after its state.srs. */
  function WithTail(form: Form, tail: seq<byte>): Form
    requires "state_srs" in form
  {
    form["state_srs" := form["state_srs"] + tail]
  }

  function TailPrepared(p: Prepared, tail: seq<byte>): Prepared {
    p.(sent := p.sent.(stateSrs := p.sent.stateSrs + tail), after := p.after.(stateSrs := p.after.stateSrs + tail))
  }

  lemma TailPrepares(h: Host, rounds: Rounds, blobs: Blobs, tier: Tier, form: Form, tail: seq<byte>)
    requires Prepare(h, rounds, blobs, tier, form).Ok?
    ensures "state_srs" in form
    ensures Prepare(h, rounds, blobs, tier, WithTail(form, tail))
         == Ok(TailPrepared(Prepare(h, rounds, blobs, tier, form).value, tail))
  {
  }

  /** The tool's checks do not see the tail, so the upload passes with it. */
  lemma TailPasses(h: Host, rounds: Rounds, blobs: Blobs, tier: Tier, form: Form, p: Prepared, tail: seq<byte>)
    requires CheckUpload(h, rounds, blobs, tier, form) == Ok(p)
    ensures "state_srs" in form && CheckUpload(h, rounds, blobs, tier, WithTail(form, tail)) == Ok(TailPrepared(p, tail))
  {
    TailPrepares(h, rounds, blobs, tier, form, tail);
    TailAccepted(h.L, p.before, p.after, tail);
  }

  lemma TailOpens(h: Host, files: Files, a: Loaded, tail: seq<byte>)
    requires Opened(h, files) == Some(a)
    ensures Opened(h, files.(stateSrs := files.stateSrs + tail)) == Some(a)
  {
    TailLoads(h.L, DirOf(h, files, Internal("")).value, tail);
  }

  /** The failing input: any upload that would be committed with a canonical state.srs is also
      committed with bytes after it.  Its head is then served only if the canonical bytes were
      stored before, are one of its two text files, or collide with a sent file. */
  lemma TailStalls(h: Host, g: Ledger, tier: Tier, form: Form, p: Prepared, tail: seq<byte>, now: int, eventId: Option<string>)
    returns (a: Loaded)
    requires ChainInv(h, g) && Commits(h, g, tier, form, p) && tail != []
    requires Opened(h, p.sent).Some? && p.sent.stateSrs == Encode(h.L, Opened(h, p.sent).value.srs)
    ensures Opened(h, p.sent) == Some(a) && "state_srs" in form
    ensures var s := Applied(h, g, Contribution(tier, WithTail(form, tail), now, eventId)).store;
      (tier, p.round) in s.rounds
      && (s.rounds[(tier, p.round)].srsHash in s.blobs ==>
            HexEncode(HashOf(h.L, a.srs)) in g.store.blobs || StoredOtherwise(h, TailPrepared(p, tail).sent, a.srs))
  {
    TailPasses(h, g.store.rounds, g.store.blobs, tier, form, p, tail);
    a := CommitServes(h, g, tier, WithTail(form, tail), TailPrepared(p, tail), now, eventId);
    TailOpens(h, p.sent, Opened(h, p.sent).value, tail);
    TailServed(h, g.store.blobs, p.sent, a.srs, tail);
  }

  lemma TailServed(h: Host, blobs: Blobs, sent: Files, srs: PowersOfTau, tail: seq<byte>)
    requires sent.stateSrs == Encode(h.L, srs) && tail != []
    ensures Served(h, blobs, sent.(stateSrs := sent.stateSrs + tail), srs) ==>
      HexEncode(HashOf(h.L, srs)) in blobs || StoredOtherwise(h, sent.(stateSrs := sent.stateSrs + tail), srs)
  {
    assert |sent.stateSrs + tail| > |Encode(h.L, srs)|;
  }

  /** A text file is the canonical encoding of the string, or a sent file collides with it. */
  ghost predicate StoredOtherwise(h: Host, sent: Files, srs: PowersOfTau) {
    sent.stateTxt == Encode(h.L, srs) || sent.receipt == Encode(h.L, srs)
    || exists x :: x in SentBytes(sent) && ShaCollision(h.L, x, Encode(h.L, srs))
  }
}
