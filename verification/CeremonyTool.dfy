/** The ceremony tool on a state directory: contributing to one, and checking the step from
    one to the next. */
module CeremonyTool {
  import opened PrimeField
  import opened Bytes
  import opened Results
  import opened Text
  import opened Ceremony
  import opened SrsCodec
  import opened Transcript

  /** The three files of a state directory. */
  datatype Dir = Dir(stateTxt: string, receiptTxt: string, stateSrs: seq<byte>)

  datatype Loaded = Loaded(state: Kv, receipt: Kv, srs: PowersOfTau)

  datatype ToolError =
    | BadLine(line: nat)
    | MissingKey(key: string)
    | BadVersion
    | BadSrs(reason: ImportError)
    | BadNumber
    | BadTier
    | BadParticipant
    | BadHex
    | BadPoint
    | Mismatch(what: string)
    | NotAccepted(verdict: Verdict)

  const TOOL_VERSION: string := "1"

  // ---------------------------------------------------------------------- loading

  function Load(file: string): Result<Kv, ToolError> {
    match ReadKv(file) case Ok(kv) => Ok(kv) case Err(n) => Err(BadLine(n))
  }

  function Value(kv: Kv, key: string): Result<string, ToolError> {
    if key in kv then Ok(kv[key]) else Err(MissingKey(key))
  }

  function LoadDir(L: Library, dir: Dir): Result<Loaded, ToolError> {
    var state :- Load(dir.stateTxt);
    var receipt :- Load(dir.receiptTxt);
    var stateVersion :- Value(state, "tool_version");
    :- Need(stateVersion == TOOL_VERSION, BadVersion);
    var receiptVersion :- Value(receipt, "tool_version");
    :- Need(receiptVersion == TOOL_VERSION, BadVersion);
    match Decode(L, dir.stateSrs) case Ok(srs) => Ok(Loaded(state, receipt, srs)) case Err(e) => Err(BadSrs(e))
  }

  function NumberAt(kv: Kv, key: string): Result<nat, ToolError> {
    var text :- Value(kv, key);
    match ParseUsize(text) case Some(n) => Ok(n) case None => Err(BadNumber)
  }

  function ParseTier(name: string): Result<Tier, ToolError> {
    if name == "small" then Ok(Small)
    else if name == "medium" then Ok(Medium)
    else if name == "large" then Ok(Large)
    else Err(BadTier)
  }

  function TierName(tier: Tier): string {
    match tier case Small => "small" case Medium => "medium" case Large => "large"
  }

  /** A directory loads exactly if both text files read, both carry version 1, and the SRS
      decodes; it loads as just that. */
  lemma LoadMeans(L: Library, dir: Dir, loaded: Loaded)
    ensures LoadDir(L, dir) == Ok(loaded) <==>
      ReadKv(dir.stateTxt) == Ok(loaded.state) && Has(loaded.state, "tool_version", "1")
      && ReadKv(dir.receiptTxt) == Ok(loaded.receipt) && Has(loaded.receipt, "tool_version", "1")
      && Decode(L, dir.stateSrs) == Ok(loaded.srs)
  {
  }

  /** The three tiers by name. */
  lemma TierMeans(name: string, tier: Tier)
    ensures ParseTier(name) == Ok(tier) <==> name == TierName(tier)
    ensures TierName(Small) == "small" && TierName(Medium) == "medium" && TierName(Large) == "large"
  {
  }

  // ------------------------------------------------------------------------ proofs

  /** A point in hexadecimal; bytes after the point are ignored. */
  function PointAt(dec: seq<byte> -> Option<int>, len: nat, receipt: Kv, key: string): Result<int, ToolError> {
    var text :- Value(receipt, key);
    match HexDecode(text)
    case None => Err(BadHex)
    case Some(bytes) =>
      if |bytes| < len || dec(bytes[..len]).None? then Err(BadPoint) else Ok(dec(bytes[..len]).value)
  }

  function ProofFrom(L: Library, receipt: Kv): Result<ContributionProof, ToolError> {
    var t0 :- PointAt(L.decG1, G1_LEN, receipt, "tau_proof_g1");
    var t1 :- PointAt(L.decG1, G1_LEN, receipt, "tau_proof_delta_g1");
    var a0 :- PointAt(L.decG2, G2_LEN, receipt, "alpha_proof_g2");
    var a1 :- PointAt(L.decG2, G2_LEN, receipt, "alpha_proof_delta_g2");
    var b0 :- PointAt(L.decG1, G1_LEN, receipt, "beta_proof_g1");
    var b1 :- PointAt(L.decG1, G1_LEN, receipt, "beta_proof_delta_g1");
    Ok(ContributionProof((t0, t1), (a0, a1), (b0, b1)))
  }

  /** The key holds, in hexadecimal, bytes that begin with a point of `len` bytes. */
  ghost predicate HoldsPoint(dec: seq<byte> -> Option<int>, len: nat, receipt: Kv, key: string, x: int) {
    key in receipt
    && exists bytes: seq<byte> ::
         HexDecode(receipt[key]) == Some(bytes) && |bytes| >= len && dec(bytes[..len]) == Some(x)
  }

  lemma PointMeans(dec: seq<byte> -> Option<int>, len: nat, receipt: Kv, key: string, x: int)
    ensures PointAt(dec, len, receipt, key) == Ok(x) <==> HoldsPoint(dec, len, receipt, key, x)
  {
  }

  /** The proof of a receipt: for each secret the point of the draw's basis and the one
      multiplied by it, under these keys, alpha's in G2. */
  lemma ProofReads(L: Library, receipt: Kv, p: ContributionProof)
    ensures ProofFrom(L, receipt) == Ok(p) <==>
      HoldsPoint(L.decG1, 48, receipt, "tau_proof_g1", p.tau.0)
      && HoldsPoint(L.decG1, 48, receipt, "tau_proof_delta_g1", p.tau.1)
      && HoldsPoint(L.decG2, 96, receipt, "alpha_proof_g2", p.alpha.0)
      && HoldsPoint(L.decG2, 96, receipt, "alpha_proof_delta_g2", p.alpha.1)
      && HoldsPoint(L.decG1, 48, receipt, "beta_proof_g1", p.beta.0)
      && HoldsPoint(L.decG1, 48, receipt, "beta_proof_delta_g1", p.beta.1)
  {
    PointMeans(L.decG1, 48, receipt, "tau_proof_g1", p.tau.0);
    PointMeans(L.decG1, 48, receipt, "tau_proof_delta_g1", p.tau.1);
    PointMeans(L.decG2, 96, receipt, "alpha_proof_g2", p.alpha.0);
    PointMeans(L.decG2, 96, receipt, "alpha_proof_delta_g2", p.alpha.1);
    PointMeans(L.decG1, 48, receipt, "beta_proof_g1", p.beta.0);
    PointMeans(L.decG1, 48, receipt, "beta_proof_delta_g1", p.beta.1);
  }

  // ------------------------------------------------------------- checking a step

  /** The successor of a round number in 64 bits. */
  function NextRound(round: nat): (next: nat)
    ensures round < 0xffff_ffff_ffff_ffff ==> next == round + 1
    ensures round == 0xffff_ffff_ffff_ffff ==> next == 0
  {
    (round + 1) % USIZE
  }

  function VerifyDirs(L: Library, before: Dir, after: Dir): Result<(), ToolError> {
    var b :- LoadDir(L, before);
    var a :- LoadDir(L, after);
    VerifyLoaded(L, b, a)
  }

  function VerifyLoaded(L: Library, b: Loaded, a: Loaded): Result<(), ToolError> {
    var _ :- VerifyNames(L, b, a);
    VerifyProof(L, b, a)
  }

  /** What the two directories say of themselves and of each other. */
  function VerifyNames(L: Library, b: Loaded, a: Loaded): Result<(), ToolError> {
    var tierB :- Value(b.state, "tier");
    var tierA :- Value(a.state, "tier");
    :- Need(tierB == tierA, Mismatch("tier"));
    var circuitB :- Value(b.state, "circuit_id");
    var circuitA :- Value(a.state, "circuit_id");
    :- Need(circuitB == circuitA, Mismatch("circuit_id"));
    var roundB :- NumberAt(b.state, "round");
    var roundA :- NumberAt(a.state, "round");
    :- Need(roundA == NextRound(roundB), Mismatch("round"));
    var hashB :- Value(b.state, "srs_hash");
    :- Need(HexEncode(HashOf(L, b.srs)) == hashB, Mismatch("before srs_hash"));
    var hashA :- Value(a.state, "srs_hash");
    :- Need(HexEncode(HashOf(L, a.srs)) == hashA, Mismatch("after srs_hash"));
    var receiptB :- Value(a.receipt, "before_srs_hash");
    :- Need(receiptB == hashB, Mismatch("receipt before_srs_hash"));
    var receiptA :- Value(a.receipt, "after_srs_hash");
    :- Need(receiptA == hashA, Mismatch("receipt after_srs_hash"));
    var receiptId :- Value(a.receipt, "contribution_id");
    var stateId :- Value(a.state, "contribution_id");
    :- Need(receiptId == stateId, Mismatch("contribution_id"));
    Ok(())
  }

  /** The proof in the receipt, checked against both strings. */
  function VerifyProof(L: Library, b: Loaded, a: Loaded): Result<(), ToolError> {
    var proof :- ProofFrom(L, a.receipt);
    var verdict := VerifyContribution(L.r, b.srs, a.srs, proof);
    :- Need(verdict == Accepted, NotAccepted(verdict));
    var _ :- Value(a.receipt, "participant");
    Ok(())
  }

  ghost predicate Has(kv: Kv, key: string, value: string) {
    key in kv && kv[key] == value
  }

  /** One tier and circuit, the next round, and both strings named by their hashes. */
  ghost predicate NamesLinked(L: Library, b: Loaded, a: Loaded) {
    var hashB, hashA := HexEncode(HashOf(L, b.srs)), HexEncode(HashOf(L, a.srs));
    Has(b.state, "srs_hash", hashB) && Has(a.receipt, "before_srs_hash", hashB)
    && Has(a.state, "srs_hash", hashA) && Has(a.receipt, "after_srs_hash", hashA)
    && "tier" in b.state && Has(a.state, "tier", b.state["tier"])
    && "circuit_id" in b.state && Has(a.state, "circuit_id", b.state["circuit_id"])
    && NumberAt(b.state, "round").Ok? && NumberAt(a.state, "round") == Ok(NextRound(NumberAt(b.state, "round").value))
    && "contribution_id" in a.state && Has(a.receipt, "contribution_id", a.state["contribution_id"])
  }

  /** What a checked step shows: linked names, a participant, and a proof that links the two
      strings. */
  ghost predicate Linked(L: Library, b: Loaded, a: Loaded, proof: ContributionProof) {
    NamesLinked(L, b, a) && "participant" in a.receipt && ProofFrom(L, a.receipt) == Ok(proof)
    && VerifyContribution(L.r, b.srs, a.srs, proof) == Accepted
  }

  lemma NamesMean(L: Library, b: Loaded, a: Loaded)
    ensures VerifyNames(L, b, a).Ok? <==> NamesLinked(L, b, a)
  {
  }

  lemma ProofMeans(L: Library, b: Loaded, a: Loaded)
    ensures VerifyProof(L, b, a).Ok? <==>
      "participant" in a.receipt && ProofFrom(L, a.receipt).Ok?
      && VerifyContribution(L.r, b.srs, a.srs, ProofFrom(L, a.receipt).value) == Accepted
  {
  }

  lemma LoadedStep(L: Library, b: Loaded, a: Loaded)
    ensures VerifyLoaded(L, b, a).Ok? <==> exists proof :: Linked(L, b, a, proof)
  {
    NamesMean(L, b, a);
    ProofMeans(L, b, a);
    if VerifyLoaded(L, b, a).Ok? {
      assert Linked(L, b, a, ProofFrom(L, a.receipt).value);
    }
  }

  lemma CheckedStep(L: Library, before: Dir, after: Dir)
    ensures VerifyDirs(L, before, after).Ok? <==>
      LoadDir(L, before).Ok? && LoadDir(L, after).Ok?
      && exists proof :: Linked(L, LoadDir(L, before).value, LoadDir(L, after).value, proof)
  {
    if LoadDir(L, before).Ok? && LoadDir(L, after).Ok? {
      LoadedStep(L, LoadDir(L, before).value, LoadDir(L, after).value);
    }
  }

  // ------------------------------------------------------------------ contributing

  function ContributionId(tier: Tier, round: nat, digest: seq<byte>): string {
    "sepceremony1:" + TierName(tier) + ":r" + Decimal(round) + ":" + HexEncode(digest)
  }

  predicate ValidParticipant(name: string) {
    name != "" && '\n' !in name && '\r' !in name && '=' !in name
  }

  /** What a directory says of itself, apart from the SRS and the proof. */
  datatype Note = Note(kind: string, participant: string, tier: Tier, round: nat, circuitId: string,
                       beforeHash: string, createdAt: string)

  function StatePairs(n: Note, digest: seq<byte>): Pairs {
    [("tool_version", TOOL_VERSION),
     ("tier", TierName(n.tier)),
     ("round", Decimal(n.round)),
     ("circuit_id", n.circuitId),
     ("srs_hash", HexEncode(digest)),
     ("contribution_id", ContributionId(n.tier, n.round, digest)),
     ("srs_file", "state.srs"),
     ("receipt_file", "receipt.txt"),
     ("created_at", n.createdAt)]
  }

  function HeaderPairs(n: Note, digest: seq<byte>): Pairs {
    [("tool_version", TOOL_VERSION),
     ("kind", n.kind),
     ("participant", n.participant),
     ("tier", TierName(n.tier)),
     ("round", Decimal(n.round)),
     ("circuit_id", n.circuitId),
     ("before_srs_hash", n.beforeHash),
     ("after_srs_hash", HexEncode(digest)),
     ("contribution_id", ContributionId(n.tier, n.round, digest)),
     ("created_at", n.createdAt)]
  }

  function ProofPairs(L: Library, p: ContributionProof): Pairs {
    [("tau_proof_g1", HexEncode(L.encG1(p.tau.0))),
     ("tau_proof_delta_g1", HexEncode(L.encG1(p.tau.1))),
     ("alpha_proof_g2", HexEncode(L.encG2(p.alpha.0))),
     ("alpha_proof_delta_g2", HexEncode(L.encG2(p.alpha.1))),
     ("beta_proof_g1", HexEncode(L.encG1(p.beta.0))),
     ("beta_proof_delta_g1", HexEncode(L.encG1(p.beta.1)))]
  }

  function ReceiptPairs(L: Library, n: Note, digest: seq<byte>, p: ContributionProof): Pairs {
    HeaderPairs(n, digest) + ProofPairs(L, p)
  }

  /** The new directory.  The draws and the timestamp are inputs. */
  function ContributeDir(L: Library, before: Dir, participant: string, d: Draw, createdAt: string): Result<Dir, ToolError> {
    if !ValidParticipant(participant) then Err(BadParticipant)
    else
      var b :- LoadDir(L, before);
      ContributeLoaded(L, b, participant, d, createdAt)
  }

  function ContributeLoaded(L: Library, b: Loaded, participant: string, d: Draw, createdAt: string): Result<Dir, ToolError> {
    var tierName :- Value(b.state, "tier");
    var tier :- ParseTier(tierName);
    var round :- NumberAt(b.state, "round");
    var hashB :- Value(b.state, "srs_hash");
    :- Need(HexEncode(HashOf(L, b.srs)) == hashB, Mismatch("before srs_hash"));
    var srs := Contributed(L.r, b.srs, d);
    var proof := ProofOf(L.r, d);
    var verdict := VerifyContribution(L.r, b.srs, srs, proof);
    :- Need(verdict == Accepted, NotAccepted(verdict));
    var circuitId :- Value(b.state, "circuit_id");
    Ok(WrittenDir(L, Note("contribution", participant, tier, NextRound(round), circuitId, hashB, createdAt), srs, proof))
  }

  function WrittenDir(L: Library, n: Note, srs: PowersOfTau, proof: ContributionProof): Dir {
    Dir(Render(StatePairs(n, HashOf(L, srs))), Render(ReceiptPairs(L, n, HashOf(L, srs), proof)), Encode(L, srs))
  }

  // ------------------------------------------------- what is written is what is read

  /** Text that a line keeps as it is. */
  predicate LineSafe(s: string) {
    '\n' !in s && Chomp(s) == s
  }

  lemma {:induction false} HexLineSafe(bytes: seq<byte>)
    ensures '\n' !in HexEncode(bytes) && '\r' !in HexEncode(bytes)
  {
    if bytes != [] {
      HexLineSafe(bytes[..|bytes| - 1]);
    }
  }

  lemma DecimalLineSafe(n: nat)
    ensures '\n' !in Decimal(n) && '\r' !in Decimal(n)
  {
    assert AllDigits(Decimal(n));
    assert !IsDigit('\n') && !IsDigit('\r');
  }

  lemma IdLineSafe(tier: Tier, round: nat, digest: seq<byte>)
    ensures LineSafe(ContributionId(tier, round, digest))
  {
    HexLineSafe(digest);
    DecimalLineSafe(round);
    var prefix := "sepceremony1:" + TierName(tier) + ":r" + Decimal(round) + ":";
    assert '\n' !in prefix && prefix[|prefix| - 1] == ':';
  }

  /** Tells the keys of one file apart. */
  function KeyTag(key: string): (int, char, char, char) {
    if |key| < 4 then (0, ' ', ' ', ' ') else (|key|, key[0], key[1], key[|key| - 1])
  }

  predicate Tagged(pairs: Pairs, tags: seq<(int, char, char, char)>) {
    |tags| == |pairs| && forall i :: 0 <= i < |pairs| ==> KeyTag(pairs[i].0) == tags[i]
  }

  predicate Apart<T(==)>(xs: seq<T>) {
    forall i, j :: 0 <= i < j < |xs| ==> xs[i] != xs[j]
  }

  lemma TagsSeparate(pairs: Pairs, tags: seq<(int, char, char, char)>)
    requires Tagged(pairs, tags) && Apart(tags)
    ensures DistinctKeys(pairs)
  {
    forall i, j | 0 <= i < j < |pairs| ensures pairs[i].0 != pairs[j].0 {
      assert KeyTag(pairs[i].0) == tags[i] && KeyTag(pairs[j].0) == tags[j];
    }
  }

  const STATE_TAGS: seq<(int, char, char, char)> :=
    [(12, 't', 'o', 'n'), (4, 't', 'i', 'r'), (5, 'r', 'o', 'd'), (10, 'c', 'i', 'd'), (8, 's', 'r', 'h'),
     (15, 'c', 'o', 'd'), (8, 's', 'r', 'e'), (12, 'r', 'e', 'e'), (10, 'c', 'r', 't')]

  lemma StateTagged(n: Note, digest: seq<byte>)
    ensures Tagged(StatePairs(n, digest), STATE_TAGS)
  {
  }

  lemma StateKeysDistinct(n: Note, digest: seq<byte>)
    ensures DistinctKeys(StatePairs(n, digest))
  {
    StateTagged(n, digest);
    assert Apart(STATE_TAGS);
    TagsSeparate(StatePairs(n, digest), STATE_TAGS);
  }

  lemma StateWritable(n: Note, digest: seq<byte>)
    requires '\n' !in n.circuitId && '\n' !in n.createdAt
    ensures Writable(StatePairs(n, digest))
  {
    HexLineSafe(digest);
    DecimalLineSafe(n.round);
    IdLineSafe(n.tier, n.round, digest);
  }

  lemma StateValues(n: Note, digest: seq<byte>)
    requires '\n' !in n.circuitId && '\n' !in n.createdAt
    ensures var kv := KvMap(StatePairs(n, digest));
      Has(kv, "tool_version", TOOL_VERSION) && Has(kv, "tier", TierName(n.tier)) && Has(kv, "round", Decimal(n.round))
      && Has(kv, "circuit_id", Chomp(n.circuitId)) && Has(kv, "srs_hash", HexEncode(digest))
      && Has(kv, "contribution_id", ContributionId(n.tier, n.round, digest))
  {
    var pairs := StatePairs(n, digest);
    StateKeysDistinct(n, digest);
    HexLineSafe(digest);
    DecimalLineSafe(n.round);
    IdLineSafe(n.tier, n.round, digest);
    LookUp(pairs, 0);
    LookUp(pairs, 1);
    LookUp(pairs, 2);
    LookUp(pairs, 3);
    LookUp(pairs, 4);
    LookUp(pairs, 5);
  }

  /** The parts of a receipt that come from outside are single lines. */
  predicate ReceiptSafe(n: Note) {
    LineSafe(n.kind) && LineSafe(n.participant) && LineSafe(n.beforeHash)
    && '\n' !in n.circuitId && '\n' !in n.createdAt
  }

  const HEADER_TAGS: seq<(int, char, char, char)> :=
    [(12, 't', 'o', 'n'), (4, 'k', 'i', 'd'), (11, 'p', 'a', 't'), (4, 't', 'i', 'r'), (5, 'r', 'o', 'd'),
     (10, 'c', 'i', 'd'), (15, 'b', 'e', 'h'), (14, 'a', 'f', 'h'), (15, 'c', 'o', 'd'), (10, 'c', 'r', 't')]

  const PROOF_TAGS: seq<(int, char, char, char)> :=
    [(12, 't', 'a', '1'), (18, 't', 'a', '1'), (14, 'a', 'l', '2'), (20, 'a', 'l', '2'), (13, 'b', 'e', '1'),
     (19, 'b', 'e', '1')]

  lemma HeaderTagged(n: Note, digest: seq<byte>)
    ensures Tagged(HeaderPairs(n, digest), HEADER_TAGS)
  {
  }

  lemma ProofTagged(L: Library, p: ContributionProof)
    ensures Tagged(ProofPairs(L, p), PROOF_TAGS)
  {
  }

  lemma TagsApart()
    ensures Apart(HEADER_TAGS + PROOF_TAGS)
  {
    forall i, j | 0 <= i < 10 && 0 <= j < 6 ensures HEADER_TAGS[i] != PROOF_TAGS[j] {
    }
    assert Apart(HEADER_TAGS) && Apart(PROOF_TAGS);
  }

  lemma ReceiptKeysDistinct(L: Library, n: Note, digest: seq<byte>, p: ContributionProof)
    ensures DistinctKeys(ReceiptPairs(L, n, digest, p))
  {
    HeaderTagged(n, digest);
    ProofTagged(L, p);
    TagsApart();
    TagsSeparate(ReceiptPairs(L, n, digest, p), HEADER_TAGS + PROOF_TAGS);
  }

  lemma HeaderWritable(n: Note, digest: seq<byte>)
    requires ReceiptSafe(n)
    ensures Writable(HeaderPairs(n, digest))
  {
    HexLineSafe(digest);
    DecimalLineSafe(n.round);
    IdLineSafe(n.tier, n.round, digest);
  }

  /** A key given as text, next to bytes in hexadecimal, is a writable pair. */
  lemma HexPairWritable(key: string, bytes: seq<byte>)
    requires PlainKey(key)
    ensures Writable([(key, HexEncode(bytes))])
  {
    HexLineSafe(bytes);
  }

  lemma TauKeysPlain()
    ensures PlainKey("tau_proof_g1") && PlainKey("tau_proof_delta_g1")
  {
  }

  lemma AlphaKeysPlain()
    ensures PlainKey("alpha_proof_g2") && PlainKey("alpha_proof_delta_g2")
  {
  }

  lemma BetaKeysPlain()
    ensures PlainKey("beta_proof_g1") && PlainKey("beta_proof_delta_g1")
  {
  }

  lemma ProofWritable(L: Library, p: ContributionProof)
    ensures Writable(ProofPairs(L, p))
  {
    TauKeysPlain();
    AlphaKeysPlain();
    BetaKeysPlain();
    HexPairWritable("tau_proof_g1", L.encG1(p.tau.0));
    HexPairWritable("tau_proof_delta_g1", L.encG1(p.tau.1));
    HexPairWritable("alpha_proof_g2", L.encG2(p.alpha.0));
    HexPairWritable("alpha_proof_delta_g2", L.encG2(p.alpha.1));
    HexPairWritable("beta_proof_g1", L.encG1(p.beta.0));
    HexPairWritable("beta_proof_delta_g1", L.encG1(p.beta.1));
    EachWritable(ProofPairs(L, p));
  }

  lemma EachWritable(pairs: Pairs)
    requires forall i :: 0 <= i < |pairs| ==> Writable([pairs[i]])
    ensures Writable(pairs)
  {
    forall i | 0 <= i < |pairs| ensures PlainKey(pairs[i].0) && '\n' !in pairs[i].1 {
      assert Writable([pairs[i]]);
      assert [pairs[i]][0] == pairs[i];
    }
  }

  lemma WritableTogether(a: Pairs, b: Pairs)
    requires Writable(a) && Writable(b)
    ensures Writable(a + b)
  {
  }

  lemma ReceiptWritable(L: Library, n: Note, digest: seq<byte>, p: ContributionProof)
    requires ReceiptSafe(n)
    ensures Writable(ReceiptPairs(L, n, digest, p))
  {
    HeaderWritable(n, digest);
    ProofWritable(L, p);
    WritableTogether(HeaderPairs(n, digest), ProofPairs(L, p));
  }

  lemma LookUpIn(a: Pairs, b: Pairs, i: nat)
    requires DistinctKeys(a + b)
    ensures i < |a| ==> Has(KvMap(a + b), a[i].0, Chomp(a[i].1))
    ensures i < |b| ==> Has(KvMap(a + b), b[i].0, Chomp(b[i].1))
  {
    if i < |a| {
      LookUp(a + b, i);
      assert (a + b)[i] == a[i];
    }
    if i < |b| {
      LookUp(a + b, |a| + i);
      assert (a + b)[|a| + i] == b[i];
    }
  }

  lemma ReceiptValues(L: Library, n: Note, digest: seq<byte>, p: ContributionProof)
    requires ReceiptSafe(n)
    ensures var kv := KvMap(ReceiptPairs(L, n, digest, p));
      Has(kv, "tool_version", TOOL_VERSION) && Has(kv, "participant", n.participant)
      && Has(kv, "before_srs_hash", n.beforeHash) && Has(kv, "after_srs_hash", HexEncode(digest))
      && Has(kv, "contribution_id", ContributionId(n.tier, n.round, digest))
  {
    var header := HeaderPairs(n, digest);
    ReceiptKeysDistinct(L, n, digest, p);
    HexLineSafe(digest);
    IdLineSafe(n.tier, n.round, digest);
    LookUpIn(header, ProofPairs(L, p), 0);
    LookUpIn(header, ProofPairs(L, p), 2);
    LookUpIn(header, ProofPairs(L, p), 6);
    LookUpIn(header, ProofPairs(L, p), 7);
    LookUpIn(header, ProofPairs(L, p), 8);
  }

  lemma PointReads(r: Modulus, enc: int -> seq<byte>, dec: seq<byte> -> Option<int>, len: nat, kv: Kv, key: string, x: int)
    requires InField(r, x)
    requires forall y :: InField(r, y) ==> |enc(y)| == len && dec(enc(y)) == Some(y)
    requires Has(kv, key, Chomp(HexEncode(enc(x))))
    ensures PointAt(dec, len, kv, key) == Ok(x)
  {
    HexLineSafe(enc(x));
    HexRoundTrip(enc(x));
    assert enc(x)[..len] == enc(x);
  }

  lemma ProofValues(L: Library, header: Pairs, p: ContributionProof)
    requires DistinctKeys(header + ProofPairs(L, p))
    ensures var kv := KvMap(header + ProofPairs(L, p));
      Has(kv, "tau_proof_g1", Chomp(HexEncode(L.encG1(p.tau.0))))
      && Has(kv, "tau_proof_delta_g1", Chomp(HexEncode(L.encG1(p.tau.1))))
      && Has(kv, "alpha_proof_g2", Chomp(HexEncode(L.encG2(p.alpha.0))))
      && Has(kv, "alpha_proof_delta_g2", Chomp(HexEncode(L.encG2(p.alpha.1))))
      && Has(kv, "beta_proof_g1", Chomp(HexEncode(L.encG1(p.beta.0))))
      && Has(kv, "beta_proof_delta_g1", Chomp(HexEncode(L.encG1(p.beta.1))))
  {
    var proofs := ProofPairs(L, p);
    LookUpIn(header, proofs, 0);
    LookUpIn(header, proofs, 1);
    LookUpIn(header, proofs, 2);
    LookUpIn(header, proofs, 3);
    LookUpIn(header, proofs, 4);
    LookUpIn(header, proofs, 5);
  }

  /** The proof read from a written receipt is the one that was written. */
  lemma ReceiptProof(L: Library, n: Note, digest: seq<byte>, p: ContributionProof)
    requires Sound(L) && ProofInField(L.r, p)
    ensures ProofFrom(L, KvMap(ReceiptPairs(L, n, digest, p))) == Ok(p)
  {
    var header := HeaderPairs(n, digest);
    var kv := KvMap(header + ProofPairs(L, p));
    ReceiptKeysDistinct(L, n, digest, p);
    ProofValues(L, header, p);
    PointReads(L.r, L.encG1, L.decG1, G1_LEN, kv, "tau_proof_g1", p.tau.0);
    PointReads(L.r, L.encG1, L.decG1, G1_LEN, kv, "tau_proof_delta_g1", p.tau.1);
    PointReads(L.r, L.encG2, L.decG2, G2_LEN, kv, "alpha_proof_g2", p.alpha.0);
    PointReads(L.r, L.encG2, L.decG2, G2_LEN, kv, "alpha_proof_delta_g2", p.alpha.1);
    PointReads(L.r, L.encG1, L.decG1, G1_LEN, kv, "beta_proof_g1", p.beta.0);
    PointReads(L.r, L.encG1, L.decG1, G1_LEN, kv, "beta_proof_delta_g1", p.beta.1);
  }

  /** A written directory loads, and gives back the SRS and the proof. */
  lemma WrittenDirLoads(L: Library, n: Note, srs: PowersOfTau, proof: ContributionProof)
    requires Sound(L) && SrsInField(L.r, srs) && Encodable(srs)
    requires ReceiptSafe(n)
    ensures LoadDir(L, WrittenDir(L, n, srs, proof)) ==
      Ok(Loaded(KvMap(StatePairs(n, HashOf(L, srs))),
                KvMap(ReceiptPairs(L, n, HashOf(L, srs), proof)),
                srs))
  {
    var digest := HashOf(L, srs);
    StateWritable(n, digest);
    WrittenFileReads(StatePairs(n, digest));
    StateValues(n, digest);
    ReceiptWritable(L, n, digest, proof);
    WrittenFileReads(ReceiptPairs(L, n, digest, proof));
    ReceiptValues(L, n, digest, proof);
    ImportUndoesExport(L, srs, []);
    assert Encode(L, srs) + [] == Encode(L, srs);
  }

  /** What a written directory says when it is read, key by key. */
  ghost predicate StateSays(n: Note, digest: seq<byte>, state: Kv) {
    Has(state, "tool_version", "1")
    && Has(state, "tier", match n.tier case Small => "small" case Medium => "medium" case Large => "large")
    && Has(state, "round", Decimal(n.round))
    && Has(state, "circuit_id", Chomp(n.circuitId))
    && Has(state, "srs_hash", HexEncode(digest))
    && Has(state, "contribution_id", IdSays(n, digest))
    && Has(state, "srs_file", "state.srs")
    && Has(state, "receipt_file", "receipt.txt")
    && Has(state, "created_at", Chomp(n.createdAt))
  }

  ghost predicate ReceiptSays(n: Note, digest: seq<byte>, receipt: Kv) {
    Has(receipt, "tool_version", "1")
    && Has(receipt, "kind", n.kind)
    && Has(receipt, "participant", n.participant)
    && Has(receipt, "tier", match n.tier case Small => "small" case Medium => "medium" case Large => "large")
    && Has(receipt, "round", Decimal(n.round))
    && Has(receipt, "circuit_id", Chomp(n.circuitId))
    && Has(receipt, "before_srs_hash", n.beforeHash)
    && Has(receipt, "after_srs_hash", HexEncode(digest))
    && Has(receipt, "contribution_id", IdSays(n, digest))
    && Has(receipt, "created_at", Chomp(n.createdAt))
  }

  ghost function IdSays(n: Note, digest: seq<byte>): string {
    match n.tier
    case Small => "sepceremony1:small:r" + Decimal(n.round) + ":" + HexEncode(digest)
    case Medium => "sepceremony1:medium:r" + Decimal(n.round) + ":" + HexEncode(digest)
    case Large => "sepceremony1:large:r" + Decimal(n.round) + ":" + HexEncode(digest)
  }

  lemma IdIs(n: Note, digest: seq<byte>)
    ensures ContributionId(n.tier, n.round, digest) == IdSays(n, digest)
  {
    match n.tier
    case Small => assert "sepceremony1:" + "small" + ":r" == "sepceremony1:small:r";
    case Medium => assert "sepceremony1:" + "medium" + ":r" == "sepceremony1:medium:r";
    case Large => assert "sepceremony1:" + "large" + ":r" == "sepceremony1:large:r";
  }

  lemma StateIsSaid(n: Note, digest: seq<byte>)
    requires '\n' !in n.circuitId && '\n' !in n.createdAt
    ensures StateSays(n, digest, KvMap(StatePairs(n, digest)))
  {
    StateValues(n, digest);
    StateKeysDistinct(n, digest);
    LookUp(StatePairs(n, digest), 6);
    LookUp(StatePairs(n, digest), 7);
    LookUp(StatePairs(n, digest), 8);
    IdIs(n, digest);
  }

  lemma ReceiptIsSaid(L: Library, n: Note, digest: seq<byte>, p: ContributionProof)
    requires ReceiptSafe(n)
    ensures ReceiptSays(n, digest, KvMap(ReceiptPairs(L, n, digest, p)))
  {
    var header, proofs := HeaderPairs(n, digest), ProofPairs(L, p);
    ReceiptValues(L, n, digest, p);
    ReceiptKeysDistinct(L, n, digest, p);
    DecimalLineSafe(n.round);
    LookUpIn(header, proofs, 1);
    LookUpIn(header, proofs, 3);
    LookUpIn(header, proofs, 4);
    LookUpIn(header, proofs, 5);
    LookUpIn(header, proofs, 9);
    IdIs(n, digest);
  }

  /** A written directory loads as the string it was written with, under the hash of that
      string's encoding, with the note's fields and the proof's six points. */
  lemma WrittenSays(L: Library, n: Note, srs: PowersOfTau, proof: ContributionProof)
    requires Sound(L) && SrsInField(L.r, srs) && Encodable(srs) && ProofInField(L.r, proof) && ReceiptSafe(n)
    ensures match LoadDir(L, WrittenDir(L, n, srs, proof))
            case Err(_) => false
            case Ok(loaded) =>
              loaded.srs == srs && StateSays(n, L.sha(Encode(L, srs)), loaded.state)
              && ReceiptSays(n, L.sha(Encode(L, srs)), loaded.receipt) && ProofFrom(L, loaded.receipt) == Ok(proof)
  {
    WrittenDirLoads(L, n, srs, proof);
    StateIsSaid(n, HashOf(L, srs));
    ReceiptIsSaid(L, n, HashOf(L, srs), proof);
    ReceiptProof(L, n, HashOf(L, srs), proof);
  }

  // ---------------------------------------------------- contributing, then checking

  lemma ContributedProper(L: Library, srs: PowersOfTau, d: Draw)
    requires Encodable(srs) && DrawInField(L.r, d)
    ensures Proper(L, Contributed(L.r, srs, d)) && ProofInField(L.r, ProofOf(L.r, d))
  {
  }

  predicate EndsInReturn(s: string) {
    s != "" && s[|s| - 1] == '\r'
  }

  lemma NameParses(tier: Tier, name: string)
    ensures ParseTier(TierName(tier)) == Ok(tier)
    ensures ParseTier(name) == Ok(tier) ==> name == TierName(tier)
  {
  }

  /** A note of the next round, on top of a loaded directory. */
  ghost predicate Follows(L: Library, b: Loaded, n: Note) {
    NumberAt(b.state, "round").Ok? && n.round == NextRound(NumberAt(b.state, "round").value)
    && Has(b.state, "tier", TierName(n.tier))
    && Has(b.state, "circuit_id", n.circuitId)
    && Has(b.state, "srs_hash", n.beforeHash) && n.beforeHash == HexEncode(HashOf(L, b.srs))
  }

  lemma WrittenStepLinks(L: Library, b: Loaded, n: Note, srs: PowersOfTau, proof: ContributionProof)
    requires Sound(L) && ProofInField(L.r, proof) && ReceiptSafe(n) && Follows(L, b, n)
    requires VerifyContribution(L.r, b.srs, srs, proof) == Accepted
    ensures var a := Loaded(KvMap(StatePairs(n, HashOf(L, srs))), KvMap(ReceiptPairs(L, n, HashOf(L, srs), proof)), srs);
      VerifyLoaded(L, b, a).Ok? <==> !EndsInReturn(n.circuitId)
  {
    StateValues(n, HashOf(L, srs));
    ReceiptValues(L, n, HashOf(L, srs), proof);
    ReceiptProof(L, n, HashOf(L, srs), proof);
    DecimalParses(n.round);
    var a := Loaded(KvMap(StatePairs(n, HashOf(L, srs))), KvMap(ReceiptPairs(L, n, HashOf(L, srs), proof)), srs);
    LoadedStep(L, b, a);
    if !EndsInReturn(n.circuitId) {
      assert Linked(L, b, a, proof);
    }
  }

  /** The contribute command on a loaded directory, taken apart. */
  lemma ContributeParts(L: Library, b: Loaded, participant: string, d: Draw, createdAt: string, n: Note)
    requires Follows(L, b, n) && n.kind == "contribution" && n.participant == participant && n.createdAt == createdAt
    ensures ContributeLoaded(L, b, participant, d, createdAt) ==
      var verdict := VerifyContribution(L.r, b.srs, Contributed(L.r, b.srs, d), ProofOf(L.r, d));
      if verdict == Accepted then Ok(WrittenDir(L, n, Contributed(L.r, b.srs, d), ProofOf(L.r, d)))
      else Err(NotAccepted(verdict))
  {
    NameParses(n.tier, TierName(n.tier));
  }

  function NoteOn(b: Loaded, participant: string, createdAt: string): Note
    requires "tier" in b.state && "circuit_id" in b.state && "srs_hash" in b.state
    requires ParseTier(b.state["tier"]).Ok? && NumberAt(b.state, "round").Ok?
  {
    Note("contribution", participant, ParseTier(b.state["tier"]).value, NextRound(NumberAt(b.state, "round").value),
         b.state["circuit_id"], b.state["srs_hash"], createdAt)
  }

  lemma ContributeFollows(L: Library, b: Loaded, participant: string, d: Draw, createdAt: string)
    requires ContributeLoaded(L, b, participant, d, createdAt).Ok?
    ensures "tier" in b.state && "circuit_id" in b.state && "srs_hash" in b.state
    ensures ParseTier(b.state["tier"]).Ok? && NumberAt(b.state, "round").Ok?
    ensures Follows(L, b, NoteOn(b, participant, createdAt))
  {
    NameParses(ParseTier(b.state["tier"]).value, b.state["tier"]);
  }

  lemma LineSafeName(name: string)
    requires ValidParticipant(name)
    ensures LineSafe(name)
  {
  }

  lemma NoteSafe(L: Library, b: Loaded, n: Note)
    requires Follows(L, b, n) && '\n' !in n.circuitId && '\n' !in n.createdAt
    requires n.kind == "contribution" && ValidParticipant(n.participant)
    ensures ReceiptSafe(n)
  {
    HexLineSafe(HashOf(L, b.srs));
    LineSafeName(n.participant);
  }

  lemma WrittenChecks(L: Library, before: Dir, n: Note, d: Draw)
    requires Sound(L) && DrawInField(L.r, d) && LoadDir(L, before).Ok?
    requires Follows(L, LoadDir(L, before).value, n) && ReceiptSafe(n)
    requires var srs := LoadDir(L, before).value.srs;
      Encodable(srs) && VerifyContribution(L.r, srs, Contributed(L.r, srs, d), ProofOf(L.r, d)) == Accepted
    ensures var srs := LoadDir(L, before).value.srs;
      VerifyDirs(L, before, WrittenDir(L, n, Contributed(L.r, srs, d), ProofOf(L.r, d))).Ok? <==> !EndsInReturn(n.circuitId)
  {
    var b := LoadDir(L, before).value;
    ContributedProper(L, b.srs, d);
    WrittenDirLoads(L, n, Contributed(L.r, b.srs, d), ProofOf(L.r, d));
    WrittenStepLinks(L, b, n, Contributed(L.r, b.srs, d), ProofOf(L.r, d));
  }

  lemma LoadedFromFiles(L: Library, dir: Dir)
    requires Sound(L) && LoadDir(L, dir).Ok?
    ensures ReadKv(dir.stateTxt) == Ok(LoadDir(L, dir).value.state)
    ensures ReadKv(dir.receiptTxt) == Ok(LoadDir(L, dir).value.receipt)
    ensures Decode(L, dir.stateSrs) == Ok(LoadDir(L, dir).value.srs)
    ensures Proper(L, LoadDir(L, dir).value.srs)
  {
    ImportedIsProper(L, dir.stateSrs);
  }

  /** A name that a receipt can carry. */
  ghost predicate NamesParticipant(name: string) {
    name != "" && forall i :: 0 <= i < |name| ==> name[i] != '\n' && name[i] != '\r' && name[i] != '='
  }

  /** When the contribute command goes through: a participant that fits on a line, a
      directory that loads, names a tier, a round and a circuit, and carries the hash of its
      SRS, and a step that the check accepts. */
  ghost predicate CanContribute(L: Library, b: Loaded, participant: string, d: Draw) {
    NamesParticipant(participant)
    && "tier" in b.state && b.state["tier"] in {"small", "medium", "large"}
    && NumberAt(b.state, "round").Ok? && "circuit_id" in b.state
    && Has(b.state, "srs_hash", HexEncode(L.sha(Encode(L, b.srs))))
    && VerifyContribution(L.r, b.srs, Contributed(L.r, b.srs, d), ProofOf(L.r, d)) == Accepted
  }

  /** The note it writes: the old tier and circuit id, the next round, the old string's hash. */
  ghost predicate IsNextNote(b: Loaded, participant: string, createdAt: string, n: Note) {
    n.kind == "contribution" && n.participant == participant && n.createdAt == createdAt
    && Has(b.state, "tier", match n.tier case Small => "small" case Medium => "medium" case Large => "large")
    && Has(b.state, "circuit_id", n.circuitId) && Has(b.state, "srs_hash", n.beforeHash)
    && NumberAt(b.state, "round").Ok?
    && n.round == (NumberAt(b.state, "round").value + 1) % 0x1_0000_0000_0000_0000
  }

  /** What the contribute command does with a directory: it goes through exactly then, and
      writes the contributed string with its proof under that note. */
  lemma ContributeMeans(L: Library, before: Dir, participant: string, d: Draw, createdAt: string)
    ensures ContributeDir(L, before, participant, d, createdAt).Ok? <==>
      LoadDir(L, before).Ok? && CanContribute(L, LoadDir(L, before).value, participant, d)
    ensures !NamesParticipant(participant) ==> ContributeDir(L, before, participant, d, createdAt) == Err(BadParticipant)
    ensures ContributeDir(L, before, participant, d, createdAt).Ok? ==> exists n: Note ::
      IsNextNote(LoadDir(L, before).value, participant, createdAt, n)
      && ContributeDir(L, before, participant, d, createdAt).value
         == WrittenDir(L, n, Contributed(L.r, LoadDir(L, before).value.srs, d), ProofOf(L.r, d))
  {
    NameIsValid(participant);
    if ValidParticipant(participant) && LoadDir(L, before).Ok? {
      var b := LoadDir(L, before).value;
      OnLoaded(L, before, participant, d, createdAt);
      LoadedContributes(L, b, participant, d, createdAt);
    }
  }

  lemma NameIsValid(name: string)
    ensures ValidParticipant(name) <==> NamesParticipant(name)
  {
    assert forall c: char :: c in name <==> exists i :: 0 <= i < |name| && name[i] == c;
  }

  lemma LoadedContributes(L: Library, b: Loaded, participant: string, d: Draw, createdAt: string)
    requires ValidParticipant(participant)
    ensures ContributeLoaded(L, b, participant, d, createdAt).Ok? <==> CanContribute(L, b, participant, d)
    ensures ContributeLoaded(L, b, participant, d, createdAt).Ok? ==> exists n: Note ::
      IsNextNote(b, participant, createdAt, n)
      && ContributeLoaded(L, b, participant, d, createdAt).value
         == WrittenDir(L, n, Contributed(L.r, b.srs, d), ProofOf(L.r, d))
  {
    NameIsValid(participant);
    if ContributeLoaded(L, b, participant, d, createdAt).Ok? {
      ContributeFollows(L, b, participant, d, createdAt);
      var n := NoteOn(b, participant, createdAt);
      ContributeParts(L, b, participant, d, createdAt, n);
      assert IsNextNote(b, participant, createdAt, n);
    }
  }

  /** What the contribute command writes, the check command accepts; the one exception is a
      circuit id that ends in a carriage return, which a rewritten file loses. */
  lemma ContributedDirChecks(L: Library, before: Dir, participant: string, d: Draw, createdAt: string)
    requires Sound(L) && DrawInField(L.r, d) && '\n' !in createdAt
    requires ContributeDir(L, before, participant, d, createdAt).Ok?
    ensures LoadDir(L, before).Ok? && "circuit_id" in LoadDir(L, before).value.state
    ensures VerifyDirs(L, before, ContributeDir(L, before, participant, d, createdAt).value).Ok? <==>
      !EndsInReturn(LoadDir(L, before).value.state["circuit_id"])
  {
    var b := LoadDir(L, before).value;
    assert ContributeDir(L, before, participant, d, createdAt) == ContributeLoaded(L, b, participant, d, createdAt);
    ContributeFollows(L, b, participant, d, createdAt);
    var n := NoteOn(b, participant, createdAt);
    LoadedFromFiles(L, before);
    ValueIsOneLine(before.stateTxt, "circuit_id");
    NoteSafe(L, b, n);
    ContributeParts(L, b, participant, d, createdAt, n);
    WrittenChecks(L, before, n, d);
  }

  /** Bytes after the last point change nothing about a directory that loads. */
  lemma TailLoads(L: Library, dir: Dir, tail: seq<byte>)
    requires LoadDir(L, dir).Ok?
    ensures LoadDir(L, dir.(stateSrs := dir.stateSrs + tail)) == LoadDir(L, dir)
  {
    ImportIgnoresTail(L, dir.stateSrs, tail);
  }

  lemma StepsLoad(L: Library, before: Dir, after: Dir)
    requires VerifyDirs(L, before, after).Ok?
    ensures LoadDir(L, before).Ok? && LoadDir(L, after).Ok?
    ensures VerifyLoaded(L, LoadDir(L, before).value, LoadDir(L, after).value).Ok?
  {
  }

  lemma LoadedSteps(L: Library, before: Dir, after: Dir)
    requires LoadDir(L, before).Ok? && LoadDir(L, after).Ok?
    requires VerifyLoaded(L, LoadDir(L, before).value, LoadDir(L, after).value).Ok?
    ensures VerifyDirs(L, before, after).Ok?
  {
  }

  /** The check accepts a state.srs with any bytes after it wherever it accepts it without. */
  lemma TailAccepted(L: Library, before: Dir, after: Dir, tail: seq<byte>)
    requires VerifyDirs(L, before, after).Ok?
    ensures VerifyDirs(L, before, after.(stateSrs := after.stateSrs + tail)).Ok?
  {
    StepsLoad(L, before, after);
    TailLoads(L, after, tail);
    LoadedSteps(L, before, after.(stateSrs := after.stateSrs + tail));
  }

  /** The first directory of a tier. */
  function InitDir(L: Library, tier: Tier, circuitId: seq<byte>, participant: string, d: Draw, createdAt: string)
    : Result<Dir, ToolError>
  {
    var srs := Initial(L.r, RequiredDegree(tier), d);
    var proof := ProofOf(L.r, d);
    :- Need(ValidParticipant(participant), BadParticipant);
    var verdict := VerifyInitial(L.r, srs, proof);
    :- Need(verdict == Accepted, NotAccepted(verdict));
    Ok(WrittenDir(L, InitNote(tier, circuitId, participant, createdAt), srs, proof))
  }

  function InitNote(tier: Tier, circuitId: seq<byte>, participant: string, createdAt: string): Note {
    Note("initial", participant, tier, 0, HexEncode(circuitId), "", createdAt)
  }

  lemma InitNoteSafe(tier: Tier, circuitId: seq<byte>, participant: string, createdAt: string)
    requires ValidParticipant(participant) && '\n' !in createdAt
    ensures var n := InitNote(tier, circuitId, participant, createdAt);
      ReceiptSafe(n) && !EndsInReturn(n.circuitId) && Chomp(n.circuitId) == n.circuitId
  {
    HexLineSafe(circuitId);
    LineSafeName(participant);
  }

  lemma InitParts(L: Library, tier: Tier, circuitId: seq<byte>, participant: string, d: Draw, createdAt: string)
    requires ValidParticipant(participant)
    ensures InitDir(L, tier, circuitId, participant, d, createdAt) ==
      var srs, proof := Initial(L.r, RequiredDegree(tier), d), ProofOf(L.r, d);
      var verdict := VerifyInitial(L.r, srs, proof);
      if verdict == Accepted then Ok(WrittenDir(L, InitNote(tier, circuitId, participant, createdAt), srs, proof))
      else Err(NotAccepted(verdict))
  {
  }

  /** The init command: a valid participant and a draw that the first check accepts, then
      round 0 of the tier with the string of the draw. */
  lemma InitMeans(L: Library, tier: Tier, circuitId: seq<byte>, participant: string, d: Draw, createdAt: string)
    ensures var srs := Initial(L.r, match tier case Small => 2048 case Medium => 4096 case Large => 4096, d);
      InitDir(L, tier, circuitId, participant, d, createdAt) ==
        if !NamesParticipant(participant) then Err(BadParticipant)
        else if VerifyInitial(L.r, srs, ProofOf(L.r, d)) != Accepted
        then Err(NotAccepted(VerifyInitial(L.r, srs, ProofOf(L.r, d))))
        else Ok(WrittenDir(L, Note("initial", participant, tier, 0, HexEncode(circuitId), "", createdAt), srs, ProofOf(L.r, d)))
  {
    NameIsValid(participant);
  }

  /** A directory with the string of (tau, alpha, beta), as the tool writes it. */
  ghost predicate Genuine(L: Library, dir: Dir, tier: Tier, round: nat, s: Secrets) {
    exists n: Note, srs: PowersOfTau, proof: ContributionProof ::
      dir == WrittenDir(L, n, srs, proof) && GenuineParts(L, n, srs, tier, round, s)
  }

  ghost predicate GenuineParts(L: Library, n: Note, srs: PowersOfTau, tier: Tier, round: nat, s: Secrets) {
    n.tier == tier && n.round == round && ReceiptSafe(n) && !EndsInReturn(n.circuitId)
    && Encodable(srs) && TwoEach(srs) && Exact(L.r, srs, s.tau, s.alpha, s.beta)
  }

  lemma InitGenuine(L: Library, tier: Tier, circuitId: seq<byte>, participant: string, d: Draw, createdAt: string)
    requires IsPrime(L.r) && DrawInField(L.r, d) && ValidParticipant(participant) && '\n' !in createdAt
    ensures InitDir(L, tier, circuitId, participant, d, createdAt).Ok? <==> NonZeroDraw(d)
    ensures NonZeroDraw(d) ==>
      Genuine(L, InitDir(L, tier, circuitId, participant, d, createdAt).value, tier, 0, Secrets(d.tau, d.alpha, d.beta))
  {
    HonestInitial(L.r, RequiredDegree(tier), d);
    InitParts(L, tier, circuitId, participant, d, createdAt);
    if NonZeroDraw(d) {
      InitialIsExact(L.r, RequiredDegree(tier), d);
      InitNoteSafe(tier, circuitId, participant, createdAt);
      InitialGenuine(L, InitNote(tier, circuitId, participant, createdAt), tier, d);
    }
  }

  lemma InitialGenuine(L: Library, n: Note, tier: Tier, d: Draw)
    requires n.tier == tier && n.round == 0 && ReceiptSafe(n) && !EndsInReturn(n.circuitId)
    requires Exact(L.r, Initial(L.r, RequiredDegree(tier), d), d.tau, d.alpha, d.beta)
    ensures Genuine(L, WrittenDir(L, n, Initial(L.r, RequiredDegree(tier), d), ProofOf(L.r, d)), tier, 0,
                    Secrets(d.tau, d.alpha, d.beta))
  {
    assert GenuineParts(L, n, Initial(L.r, RequiredDegree(tier), d), tier, 0, Secrets(d.tau, d.alpha, d.beta));
  }

  lemma GenuineLoads(L: Library, n: Note, srs: PowersOfTau, proof: ContributionProof, tier: Tier, round: nat, s: Secrets)
    requires Sound(L) && round < USIZE && GenuineParts(L, n, srs, tier, round, s)
    ensures var loaded := LoadDir(L, WrittenDir(L, n, srs, proof));
      loaded.Ok? && loaded.value.srs == srs && NumberAt(loaded.value.state, "round") == Ok(round)
      && Has(loaded.value.state, "tier", TierName(tier)) && Has(loaded.value.state, "circuit_id", n.circuitId)
      && Has(loaded.value.state, "srs_hash", HexEncode(HashOf(L, srs)))
  {
    ExactEntries(L.r, srs, s.tau, s.alpha, s.beta);
    WrittenDirLoads(L, n, srs, proof);
    StateValues(n, HashOf(L, srs));
    DecimalParses(round);
  }

  /** A contribution to a genuine directory goes through exactly when no draw is zero; the
      result is genuine for the multiplied secrets, and the step checks. */
  lemma ContributeGenuine(L: Library, before: Dir, tier: Tier, round: nat, s: Secrets,
                          participant: string, d: Draw, createdAt: string)
    requires IsPrime(L.r) && Sound(L) && DrawInField(L.r, d) && ValidParticipant(participant) && '\n' !in createdAt
    requires round < USIZE && Genuine(L, before, tier, round, s)
    ensures var res := ContributeDir(L, before, participant, d, createdAt);
      (res.Ok? <==> NonZeroDraw(d))
      && (res.Ok? ==> VerifyDirs(L, before, res.value).Ok?)
      && (res.Ok? ==> Genuine(L, res.value, tier, NextRound(round), Times(L.r, d, s)))
  {
    var n: Note, srs: PowersOfTau, proof: ContributionProof :|
      before == WrittenDir(L, n, srs, proof) && GenuineParts(L, n, srs, tier, round, s);
    GenuineContribution(L, before, n, srs, proof, tier, round, s, participant, d, createdAt);
  }

  lemma OnLoaded(L: Library, before: Dir, participant: string, d: Draw, createdAt: string)
    requires ValidParticipant(participant) && LoadDir(L, before).Ok?
    ensures ContributeDir(L, before, participant, d, createdAt)
         == ContributeLoaded(L, LoadDir(L, before).value, participant, d, createdAt)
  {
  }

  lemma NextNote(L: Library, before: Dir, n: Note, srs: PowersOfTau, proof: ContributionProof, tier: Tier, round: nat,
                 s: Secrets, participant: string, createdAt: string) returns (next: Note)
    requires Sound(L) && round < USIZE && ValidParticipant(participant) && '\n' !in createdAt
    requires before == WrittenDir(L, n, srs, proof) && GenuineParts(L, n, srs, tier, round, s)
    ensures LoadDir(L, before).Ok? && LoadDir(L, before).value.srs == srs
    ensures Follows(L, LoadDir(L, before).value, next) && ReceiptSafe(next) && !EndsInReturn(next.circuitId)
    ensures next.kind == "contribution" && next.participant == participant && next.createdAt == createdAt
    ensures next.tier == tier && next.round == NextRound(round)
  {
    GenuineLoads(L, n, srs, proof, tier, round, s);
    next := Note("contribution", participant, tier, NextRound(round), n.circuitId, HexEncode(HashOf(L, srs)), createdAt);
    NoteSafe(L, LoadDir(L, before).value, next);
  }

  lemma GenuineContribution(L: Library, before: Dir, n: Note, srs: PowersOfTau, proof: ContributionProof, tier: Tier,
                            round: nat, s: Secrets, participant: string, d: Draw, createdAt: string)
    requires IsPrime(L.r) && Sound(L) && DrawInField(L.r, d) && ValidParticipant(participant) && '\n' !in createdAt
    requires round < USIZE && before == WrittenDir(L, n, srs, proof) && GenuineParts(L, n, srs, tier, round, s)
    ensures var res := ContributeDir(L, before, participant, d, createdAt);
      (res.Ok? <==> NonZeroDraw(d))
      && (res.Ok? ==> VerifyDirs(L, before, res.value).Ok?)
      && (res.Ok? ==> Genuine(L, res.value, tier, NextRound(round), Times(L.r, d, s)))
  {
    var next := NextNote(L, before, n, srs, proof, tier, round, s, participant, createdAt);
    HonestContribution(L.r, srs, s.tau, s.alpha, s.beta, d);
    OnLoaded(L, before, participant, d, createdAt);
    ContributeParts(L, LoadDir(L, before).value, participant, d, createdAt, next);
    if NonZeroDraw(d) {
      WrittenChecks(L, before, next, d);
      NextGenuine(L, next, srs, tier, round, s, d);
    }
  }

  lemma NextGenuine(L: Library, next: Note, srs: PowersOfTau, tier: Tier, round: nat, s: Secrets, d: Draw)
    requires IsPrime(L.r) && DrawInField(L.r, d) && NonZeroDraw(d)
    requires Encodable(srs) && TwoEach(srs) && Exact(L.r, srs, s.tau, s.alpha, s.beta)
    requires next.tier == tier && next.round == NextRound(round) && ReceiptSafe(next) && !EndsInReturn(next.circuitId)
    ensures Genuine(L, WrittenDir(L, next, Contributed(L.r, srs, d), ProofOf(L.r, d)), tier, NextRound(round), Times(L.r, d, s))
  {
    ContributionMultiplies(L.r, srs, s.tau, s.alpha, s.beta, d);
    assert GenuineParts(L, next, Contributed(L.r, srs, d), tier, NextRound(round), Times(L.r, d, s));
  }

  /** A note whose circuit id ends in two carriage returns, over a genuine string. */
  ghost predicate ReturnParts(L: Library, n: Note, srs: PowersOfTau, s: Secrets, base: string) {
    ReceiptSafe(n) && n.circuitId == base + "\r\r" && n.round < USIZE
    && Encodable(srs) && TwoEach(srs) && Exact(L.r, srs, s.tau, s.alpha, s.beta)
  }

  lemma ReturnLoads(L: Library, n: Note, srs: PowersOfTau, proof: ContributionProof, s: Secrets, base: string)
    returns (b: Loaded)
    requires Sound(L) && ReturnParts(L, n, srs, s, base)
    ensures LoadDir(L, WrittenDir(L, n, srs, proof)) == Ok(b) && b.srs == srs
    ensures b.state == KvMap(StatePairs(n, HashOf(L, srs)))
  {
    ExactEntries(L.r, srs, s.tau, s.alpha, s.beta);
    WrittenDirLoads(L, n, srs, proof);
    b := LoadDir(L, WrittenDir(L, n, srs, proof)).value;
  }

  function NextOf(L: Library, n: Note, srs: PowersOfTau, circuitId: string, participant: string, createdAt: string): Note {
    Note("contribution", participant, n.tier, NextRound(n.round), circuitId, HexEncode(HashOf(L, srs)), createdAt)
  }

  lemma ReturnFollows(L: Library, n: Note, srs: PowersOfTau, base: string, b: Loaded, participant: string, createdAt: string)
    requires ReceiptSafe(n) && n.circuitId == base + "\r\r" && n.round < USIZE
    requires b.srs == srs && b.state == KvMap(StatePairs(n, HashOf(L, srs)))
    ensures Follows(L, b, NextOf(L, n, srs, base + "\r", participant, createdAt))
  {
    StateValues(n, HashOf(L, srs));
    DecimalParses(n.round);
    assert Chomp(n.circuitId) == base + "\r";
  }

  lemma ContributeFollowing(L: Library, b: Loaded, next: Note, s: Secrets, d: Draw)
    requires IsPrime(L.r) && DrawInField(L.r, d) && NonZeroDraw(d)
    requires Follows(L, b, next) && next.kind == "contribution"
    requires TwoEach(b.srs) && Exact(L.r, b.srs, s.tau, s.alpha, s.beta)
    ensures ContributeLoaded(L, b, next.participant, d, next.createdAt).Ok?
  {
    HonestContribution(L.r, b.srs, s.tau, s.alpha, s.beta, d);
    ContributeParts(L, b, next.participant, d, next.createdAt, next);
  }

  /** The failing input: a written directory whose circuit id ends in two carriage returns
      loads with one of them, a contribution to it goes through, and the step does not check. */
  lemma ReturnIsLost(L: Library, n: Note, srs: PowersOfTau, proof: ContributionProof, s: Secrets, base: string,
                     participant: string, d: Draw, createdAt: string)
    requires IsPrime(L.r) && Sound(L) && DrawInField(L.r, d) && NonZeroDraw(d)
    requires ValidParticipant(participant) && '\n' !in createdAt && ReturnParts(L, n, srs, s, base)
    ensures var before := WrittenDir(L, n, srs, proof);
      LoadDir(L, before).Ok? && Has(LoadDir(L, before).value.state, "circuit_id", base + "\r")
      && ContributeDir(L, before, participant, d, createdAt).Ok?
      && VerifyDirs(L, before, ContributeDir(L, before, participant, d, createdAt).value).Err?
  {
    var b := ReturnLoads(L, n, srs, proof, s, base);
    ReturnFollows(L, n, srs, base, b, participant, createdAt);
    ContributeFollowing(L, b, NextOf(L, n, srs, base + "\r", participant, createdAt), s, d);
    ReturnFails(L, WrittenDir(L, n, srs, proof), b, base, participant, d, createdAt);
  }

  lemma ReturnFails(L: Library, before: Dir, b: Loaded, base: string, participant: string, d: Draw, createdAt: string)
    requires Sound(L) && DrawInField(L.r, d) && ValidParticipant(participant) && '\n' !in createdAt
    requires LoadDir(L, before) == Ok(b) && Has(b.state, "circuit_id", base + "\r")
    requires ContributeLoaded(L, b, participant, d, createdAt).Ok?
    ensures ContributeDir(L, before, participant, d, createdAt).Ok?
    ensures VerifyDirs(L, before, ContributeDir(L, before, participant, d, createdAt).value).Err?
  {
    OnLoaded(L, before, participant, d, createdAt);
    ContributedDirChecks(L, before, participant, d, createdAt);
  }

  // ----------------------------------------------------- checking one directory

  function VerifyState(L: Library, dir: Dir): Result<(), ToolError> {
    var d :- LoadDir(L, dir);
    var round :- NumberAt(d.state, "round");
    var expected :- Value(d.state, "srs_hash");
    :- Need(HexEncode(HashOf(L, d.srs)) == expected, Mismatch("srs_hash"));
    var verdict := VerifyConsistency(L.r, d.srs);
    :- Need(verdict == Accepted, NotAccepted(verdict));
    var receiptHash :- Value(d.receipt, "after_srs_hash");
    :- Need(receiptHash == expected, Mismatch("receipt after_srs_hash"));
    var _ :- (if round != 0 then Ok(()) else CheckInitial(L, d));
    var _ :- Value(d.state, "tier");
    var _ :- Value(d.state, "contribution_id");
    Ok(())
  }

  function CheckInitial(L: Library, d: Loaded): Result<(), ToolError> {
    var proof :- ProofFrom(L, d.receipt);
    var verdict := VerifyInitial(L.r, d.srs, proof);
    :- Need(verdict == Accepted, NotAccepted(verdict));
    Ok(())
  }

  /** A step from one genuine string to the next, as the two directories record it. */
  ghost predicate StepOfDirs(L: Library, b: Loaded, a: Loaded, proof: ContributionProof) {
    var s := Visible(a.srs);
    NamesLinked(L, b, a) && "participant" in a.receipt && ProofFrom(L, a.receipt) == Ok(proof)
    && |b.srs.tauG2| >= 2 && b.srs.alphaTauG1 != []
    && TwoEach(a.srs) && Exact(L.r, a.srs, s.tau, s.alpha, s.beta) && Ratios(L.r, proof, Visible(b.srs), s)
    && FreshIfFirst(L, a)
  }

  /** A directory numbered 0 must hold a first contribution; after a step only the wrap-around
      of the number leads there. */
  ghost predicate FreshIfFirst(L: Library, a: Loaded) {
    NumberAt(a.state, "round") == Ok(0) ==>
      exists proof :: ProofFrom(L, a.receipt) == Ok(proof) && FirstString(L, a.srs, proof)
  }

  /** A genuine string whose secrets stand in the proof's ratios to one. */
  ghost predicate FirstString(L: Library, srs: PowersOfTau, proof: ContributionProof) {
    TwoEach(srs) && Exact(L.r, srs, Visible(srs).tau, Visible(srs).alpha, Visible(srs).beta)
    && Ratios(L.r, proof, Secrets(1, 1, 1), Visible(srs))
  }

  lemma FirstMeans(L: Library, a: Loaded)
    requires IsPrime(L.r) && SrsInField(L.r, a.srs)
    ensures CheckInitial(L, a).Ok? <==> exists proof :: ProofFrom(L, a.receipt) == Ok(proof) && FirstString(L, a.srs, proof)
  {
    match ProofFrom(L, a.receipt)
    case Err(_) =>
    case Ok(proof) => InitialMeans(L.r, a.srs, proof);
  }

  /** What verify-state shows of a directory: it loads, is numbered, names a tier and a
      contribution, carries the hash of its SRS in both files, and holds a genuine string,
      which is a first contribution if the number is 0. */
  ghost predicate StateShows(L: Library, d: Loaded) {
    var hash, s := HexEncode(L.sha(Encode(L, d.srs))), Visible(d.srs);
    NumberAt(d.state, "round").Ok? && "tier" in d.state && "contribution_id" in d.state
    && Has(d.state, "srs_hash", hash) && Has(d.receipt, "after_srs_hash", hash)
    && |d.srs.tauG1| >= 2 && |d.srs.tauG2| >= 2 && d.srs.alphaTauG1 != [] && d.srs.betaTauG1 != []
    && Exact(L.r, d.srs, s.tau, s.alpha, s.beta) && FreshIfFirst(L, d)
  }

  lemma StateMeans(L: Library, dir: Dir)
    requires IsPrime(L.r) && Sound(L)
    ensures VerifyState(L, dir).Ok? <==> LoadDir(L, dir).Ok? && StateShows(L, LoadDir(L, dir).value)
  {
    if LoadDir(L, dir).Ok? {
      var d := LoadDir(L, dir).value;
      LoadedFromFiles(L, dir);
      FirstMeans(L, d);
      AcceptedString(L.r, d.srs);
      StateChecks(L, dir, d);
    }
  }

  lemma StateChecks(L: Library, dir: Dir, d: Loaded)
    requires LoadDir(L, dir) == Ok(d)
    ensures VerifyState(L, dir).Ok? <==>
      NumberAt(d.state, "round").Ok? && "tier" in d.state && "contribution_id" in d.state
      && Has(d.state, "srs_hash", HexEncode(HashOf(L, d.srs))) && Has(d.receipt, "after_srs_hash", HexEncode(HashOf(L, d.srs)))
      && VerifyConsistency(L.r, d.srs) == Accepted && (NumberAt(d.state, "round") == Ok(0) ==> CheckInitial(L, d).Ok?)
  {
  }

  /** An empty series is no string: the consistency check panics on it or rejects it. */
  lemma AcceptedString(r: Modulus, srs: PowersOfTau)
    requires IsPrime(r) && SrsInField(r, srs)
    ensures VerifyConsistency(r, srs) == Accepted <==>
      |srs.tauG1| >= 2 && |srs.tauG2| >= 2 && srs.alphaTauG1 != [] && srs.betaTauG1 != []
      && Exact(r, srs, Visible(srs).tau, Visible(srs).alpha, Visible(srs).beta)
  {
    if srs.alphaTauG1 != [] && srs.betaTauG1 != [] {
      ConsistencyMeans(r, srs);
    }
  }

  lemma StateOfStep(L: Library, b: Loaded, a: Loaded, dir: Dir)
    requires IsPrime(L.r) && SrsInField(L.r, a.srs)
    requires LoadDir(L, dir) == Ok(a) && NamesLinked(L, b, a)
    ensures VerifyState(L, dir).Ok? <==> VerifyConsistency(L.r, a.srs) == Accepted && FreshIfFirst(L, a)
  {
    StateChecks(L, dir, a);
    FirstMeans(L, a);
  }

  lemma LinkedIsGenuine(L: Library, b: Loaded, a: Loaded, proof: ContributionProof)
    requires IsPrime(L.r) && SrsInField(L.r, a.srs)
    ensures Linked(L, b, a, proof) && VerifyConsistency(L.r, a.srs) == Accepted && FreshIfFirst(L, a)
      <==> StepOfDirs(L, b, a, proof)
  {
    StepMeans(L.r, b.srs, a.srs, proof);
    if |b.srs.tauG2| >= 2 && b.srs.alphaTauG1 != [] {
      StepAndStringMean(L.r, b.srs, a.srs, proof);
    }
  }

  lemma LinkedHasNames(L: Library, b: Loaded, a: Loaded, proof: ContributionProof)
    requires Linked(L, b, a, proof) || StepOfDirs(L, b, a, proof)
    ensures NamesLinked(L, b, a)
  {
  }

  /** Both commands pass if and only if the directories record a genuine step. */
  lemma BothChecks(L: Library, before: Dir, after: Dir)
    requires IsPrime(L.r) && Sound(L)
    ensures VerifyDirs(L, before, after).Ok? && VerifyState(L, after).Ok? <==>
      LoadDir(L, before).Ok? && LoadDir(L, after).Ok?
      && exists proof :: StepOfDirs(L, LoadDir(L, before).value, LoadDir(L, after).value, proof)
  {
    CheckedStep(L, before, after);
    if LoadDir(L, before).Ok? && LoadDir(L, after).Ok? {
      BothLoaded(L, LoadDir(L, before).value, LoadDir(L, after).value, after);
    }
  }

  lemma BothLoaded(L: Library, b: Loaded, a: Loaded, after: Dir)
    requires IsPrime(L.r) && Sound(L) && LoadDir(L, after) == Ok(a)
    ensures (exists proof :: Linked(L, b, a, proof)) && VerifyState(L, after).Ok? <==>
      exists proof :: StepOfDirs(L, b, a, proof)
  {
    LoadedFromFiles(L, after);
    forall proof | Linked(L, b, a, proof) || StepOfDirs(L, b, a, proof)
      ensures Linked(L, b, a, proof) && VerifyState(L, after).Ok? <==> StepOfDirs(L, b, a, proof)
    {
      LinkedHasNames(L, b, a, proof);
      StateOfStep(L, b, a, after);
      LinkedIsGenuine(L, b, a, proof);
    }
  }
}
