/** What the coordinator can always do next: check any upload without a panic, and commit an
    honest contribution to a head whose files are stored. */
module ChainProgress {
  import opened PrimeField
  import opened Bytes
  import opened Results
  import opened Text
  import opened Ceremony
  import opened SrsCodec
  import opened Transcript
  import opened CeremonyTool
  import opened RoundChain
  import opened ChainIntegrity

  // ------------------------------------------------------------- committed strings

  /** A string that a step check lets through as the new one. */
  ghost predicate Usable(r: Modulus, srs: PowersOfTau) {
    SrsInField(r, srs) && TwoEach(srs) && !Degenerate(srs) && SecondEntries(r, srs)
  }

  lemma InitialUsable(r: Modulus, degree: nat, d: Draw)
    requires degree >= 2 && DrawInField(r, d) && NonZeroDraw(d)
    ensures Usable(r, Initial(r, degree, d))
  {
    InitialIsExact(r, degree, d);
    ExactPasses(r, Initial(r, degree, d), Secrets(d.tau, d.alpha, d.beta));
    ExactEntries(r, Initial(r, degree, d), d.tau, d.alpha, d.beta);
  }

  lemma LinkUsable(h: Host, g: Ledger, tier: Tier, n: int, k: Link)
    requires Sound(h.L) && IsLink(h, g, tier, n, k)
    ensures Usable(h.L.r, k.after.srs)
  {
    OpenedParts(h, g.history[(tier, n)].sent, k.after);
    StepMeans(h.L.r, k.before.srs, k.after.srs, k.proof);
  }

  lemma LinkString(h: Host, g: Ledger, tier: Tier, n: int, k: Link)
    requires IsLink(h, g, tier, n, k)
    ensures SrsAt(h, g, tier, n) == k.after.srs
  {
  }

  /** Every committed string is one that an honest participant can contribute to. */
  lemma CommittedUsable(h: Host, g: Ledger, tier: Tier, n: int)
    requires IsPrime(h.L.r) && SoundHost(h) && ChainInv(h, g) && (tier, n) in g.store.rounds
    ensures Usable(h.L.r, SrsAt(h, g, tier, n))
  {
    if n == 0 {
      var d := SeedString(h, g, tier);
      InitialUsable(h.L.r, RequiredDegree(tier), d);
    } else {
      var k := LinkAt(h, g, tier, n);
      LinkUsable(h, g, tier, n, k);
      LinkString(h, g, tier, n, k);
    }
  }

  // ------------------------------------------------------------------ fetched files

  /** A file fetched for a round is not what the round committed, byte for byte. */
  ghost predicate FetchClash(h: Host, sent: Files, srs: PowersOfTau, fetched: Files) {
    ShaCollision(h.L, fetched.stateSrs, Encode(h.L, srs))
    || ShaCollision(h.L, fetched.stateTxt, sent.stateTxt) || ShaCollision(h.L, fetched.receipt, sent.receipt)
  }

  /** What a row names, and the blobs stored under those names. */
  lemma FetchedIsSent(h: Host, blobs: Blobs, row: Round, sent: Files, loaded: Loaded, fetched: Files)
    requires Sound(h.L) && ContentAddressed(h, blobs)
    requires Named(h, row, sent) && Opened(h, sent) == Some(loaded) && Fetch(blobs, row) == Ok(fetched)
    ensures FetchClash(h, sent, loaded.srs, fetched)
         || (fetched.stateTxt == sent.stateTxt && fetched.receipt == sent.receipt
             && Decode(h.L, fetched.stateSrs) == Ok(loaded.srs))
  {
    FetchedByHash(h, blobs, row);
    OpenedParts(h, sent, loaded);
    HexInjective(h.L.sha(fetched.stateSrs), HashOf(h.L, loaded.srs));
    HexInjective(h.L.sha(fetched.stateTxt), h.L.sha(sent.stateTxt));
    HexInjective(h.L.sha(fetched.receipt), h.L.sha(sent.receipt));
    BlobUnderHash(h.L, loaded.srs, fetched.stateSrs);
  }

  /** The files of a committed round, and what they open to. */
  lemma CommittedFiles(h: Host, g: Ledger, tier: Tier, n: int) returns (sent: Files, loaded: Loaded)
    requires ChainInv(h, g) && (tier, n) in g.store.rounds
    ensures (tier, n) in g.history && sent == g.history[(tier, n)].sent
    ensures Opened(h, sent) == Some(loaded) && SrsAt(h, g, tier, n) == loaded.srs
    ensures Named(h, g.store.rounds[(tier, n)], sent)
  {
    RowFacts(h, g, tier, n);
    sent := g.history[(tier, n)].sent;
    loaded := Opened(h, sent).value;
  }

  // ------------------------------------------------------------------------- panics

  /** The tool's step check panicked. */
  predicate ToolPanicked(res: Result<(), ToolError>) {
    res == Err(NotAccepted(Panicked))
  }

  lemma NamesDoNotPanic(L: Library, b: Loaded, a: Loaded)
    ensures !ToolPanicked(VerifyNames(L, b, a))
  {
  }

  lemma ProofPanics(L: Library, b: Loaded, a: Loaded)
    requires ToolPanicked(VerifyProof(L, b, a))
    ensures TooShort(b.srs)
  {
    StepPanics(L.r, b.srs, a.srs, ProofFrom(L, a.receipt).value);
  }

  lemma LoadedPanic(L: Library, b: Loaded, a: Loaded)
    requires ToolPanicked(VerifyLoaded(L, b, a))
    ensures TooShort(b.srs)
  {
    NamesDoNotPanic(L, b, a);
    ProofPanics(L, b, a);
  }

  lemma LoadDoesNotPanic(L: Library, dir: Dir)
    ensures LoadDir(L, dir).Err? ==> !LoadDir(L, dir).error.NotAccepted?
  {
  }

  lemma DirsPanic(L: Library, before: Dir, after: Dir)
    requires ToolPanicked(VerifyDirs(L, before, after))
    ensures LoadDir(L, before).Ok? && TooShort(LoadDir(L, before).value.srs)
  {
    LoadDoesNotPanic(L, before);
    LoadDoesNotPanic(L, after);
    LoadedPanic(L, LoadDir(L, before).value, LoadDir(L, after).value);
  }

  lemma LoadedSrs(L: Library, dir: Dir)
    requires LoadDir(L, dir).Ok?
    ensures Decode(L, dir.stateSrs) == Ok(LoadDir(L, dir).value.srs)
  {
  }

  lemma CheckPanics(h: Host, rounds: Rounds, blobs: Blobs, tier: Tier, form: Form)
    requires CheckUpload(h, rounds, blobs, tier, form) == Err(NotVerified(NotAccepted(Panicked)))
    ensures Prepare(h, rounds, blobs, tier, form).Ok?
    ensures var p := Prepare(h, rounds, blobs, tier, form).value; ToolPanicked(VerifyDirs(h.L, p.before, p.after))
  {
  }

  /** In every reachable chain no upload, whatever it sends, makes the tool's check panic,
      unless a fetched blob collides with what the round committed. */
  lemma UploadNeverPanics(h: Host, g: Ledger, tier: Tier, form: Form)
    requires IsPrime(h.L.r) && SoundHost(h) && ChainInv(h, g)
    requires CheckUpload(h, g.store.rounds, g.store.blobs, tier, form) == Err(NotVerified(NotAccepted(Panicked)))
    ensures Prepare(h, g.store.rounds, g.store.blobs, tier, form).Ok?
    ensures var p := Prepare(h, g.store.rounds, g.store.blobs, tier, form).value;
      var n := Predecessor(p.round);
      (tier, n) in g.history && FetchClash(h, g.history[(tier, n)].sent, SrsAt(h, g, tier, n), p.fetched)
  {
    CheckPanics(h, g.store.rounds, g.store.blobs, tier, form);
    PreparedParts(h, g.store.rounds, g.store.blobs, tier, form);
    var p := Prepare(h, g.store.rounds, g.store.blobs, tier, form).value;
    var n := Predecessor(p.round);
    var sent, loaded := CommittedFiles(h, g, tier, n);
    CommittedUsable(h, g, tier, n);
    FetchedIsSent(h, g.store.blobs, p.prev, sent, loaded, p.fetched);
    FetchedPanics(h, p, loaded.srs);
  }

  lemma FetchedPanics(h: Host, p: Prepared, srs: PowersOfTau)
    requires ToolPanicked(VerifyDirs(h.L, p.before, p.after)) && TwoEach(srs)
    requires DirOf(h, p.fetched, Internal("")) == Ok(p.before)
    ensures Decode(h.L, p.fetched.stateSrs) != Ok(srs)
  {
    DirsPanic(h.L, p.before, p.after);
    LoadedSrs(h.L, p.before);
  }

  // ---------------------------------------------------------------------- progress

  /** What a committed state file says of its own round. */
  lemma StateSays(h: Host, g: Ledger, tier: Tier, n: int, loaded: Loaded)
    requires SoundHost(h) && ChainInv(h, g) && (tier, n) in g.store.rounds && (tier, n) in g.history
    requires Opened(h, g.history[(tier, n)].sent) == Some(loaded)
    ensures NumberAt(loaded.state, "round") == Ok(n)
    ensures Has(loaded.state, "srs_hash", HexEncode(HashOf(h.L, loaded.srs)))
  {
    RowFacts(h, g, tier, n);
    if n == 0 {
      SeedSays(h, tier, g.history[(tier, n)], loaded);
    } else {
      LinkSays(h, RowBefore(g.store.rounds, tier, n).value, g.store.rounds[(tier, n)], n, g.history[(tier, n)], loaded);
    }
  }

  lemma SeedSays(h: Host, tier: Tier, e: Entry, loaded: Loaded)
    requires SoundHost(h) && Seeded(h, tier, e) && Opened(h, e.sent) == Some(loaded)
    ensures NumberAt(loaded.state, "round") == Ok(0)
    ensures Has(loaded.state, "srs_hash", HexEncode(HashOf(h.L, loaded.srs)))
  {
    var d, createdAt :| DrawInField(h.L.r, d) && '\n' !in createdAt && SeedFiles(h, tier, d, createdAt) == Ok(e.sent);
    var seeded := SeedOpens(h, tier, d, createdAt, e.sent);
  }

  lemma LinkSays(h: Host, prev: Round, row: Round, n: int, e: Entry, loaded: Loaded)
    requires Chained(h, prev, row, n, e) && Opened(h, e.sent) == Some(loaded)
    ensures NumberAt(loaded.state, "round") == Ok(n)
    ensures Has(loaded.state, "srs_hash", HexEncode(HashOf(h.L, loaded.srs)))
  {
  }

  /** The same text files and the same string open to the same thing. */
  lemma SameOpens(h: Host, sent: Files, fetched: Files, loaded: Loaded) returns (before: Dir)
    requires Opened(h, sent) == Some(loaded) && Decode(h.L, fetched.stateSrs) == Ok(loaded.srs)
    requires fetched.stateTxt == sent.stateTxt && fetched.receipt == sent.receipt
    ensures DirOf(h, fetched, Internal("")) == Ok(before) && LoadDir(h.L, before) == Ok(loaded)
  {
    var dir := DirOf(h, sent, Internal("")).value;
    before := dir.(stateSrs := fetched.stateSrs);
  }

  /** What an honest participant writes down next. */
  function HeadNote(h: Host, tier: Tier, n: nat, srs: PowersOfTau, participant: string, createdAt: string): Note {
    Note("contribution", participant, tier, NextRound(n), HexEncode(h.circuitId(tier)), HexEncode(HashOf(h.L, srs)), createdAt)
  }

  lemma NextIsOneMore(n: nat)
    requires n + 1 < USIZE
    ensures NextRound(n) == n + 1
  {
  }

  lemma NoteFollows(h: Host, tier: Tier, n: nat, loaded: Loaded, participant: string, createdAt: string)
    requires NumberAt(loaded.state, "round") == Ok(n)
    requires Has(loaded.state, "srs_hash", HexEncode(HashOf(h.L, loaded.srs)))
    requires Has(loaded.state, "tier", TierName(tier)) && Has(loaded.state, "circuit_id", HexEncode(h.circuitId(tier)))
    requires ValidParticipant(participant) && '\n' !in createdAt
    ensures var note := HeadNote(h, tier, n, loaded.srs, participant, createdAt);
      Follows(h.L, loaded, note) && ReceiptSafe(note) && !EndsInReturn(note.circuitId)
  {
    var note := HeadNote(h, tier, n, loaded.srs, participant, createdAt);
    HexLineSafe(h.circuitId(tier));
    NoteSafe(h.L, loaded, note);
  }

  /** On a usable string the honest contribution is written, and the step checks. */
  lemma HonestWrites(L: Library, before: Dir, b: Loaded, note: Note, d: Draw)
    requires IsPrime(L.r) && Sound(L) && DrawInField(L.r, d) && NonZeroDraw(d)
    requires LoadDir(L, before) == Ok(b) && Usable(L.r, b.srs) && Encodable(b.srs)
    requires Follows(L, b, note) && ReceiptSafe(note) && !EndsInReturn(note.circuitId)
    requires note.kind == "contribution" && ValidParticipant(note.participant)
    ensures var after := WrittenDir(L, note, Contributed(L.r, b.srs, d), ProofOf(L.r, d));
      ContributeDir(L, before, note.participant, d, note.createdAt) == Ok(after) && VerifyDirs(L, before, after).Ok?
  {
    HonestOnAccepted(L.r, b.srs, d);
    OnLoaded(L, before, note.participant, d, note.createdAt);
    ContributeParts(L, b, note.participant, d, note.createdAt, note);
    WrittenChecks(L, before, note, d);
  }

  /** A directory as the upload form carries it. */
  function UploadForm(h: Host, dir: Dir): Form {
    map["state_srs" := dir.stateSrs, "state_txt" := h.toUtf8(dir.stateTxt), "receipt" := h.toUtf8(dir.receiptTxt)]
  }

  lemma FormFiles(h: Host, dir: Dir)
    requires SoundHost(h)
    ensures FilesOf(UploadForm(h, dir)).Ok?
    ensures DirOf(h, FilesOf(UploadForm(h, dir)).value, BadRequest("not UTF-8")) == Ok(dir)
  {
  }

  /** The coordinator reads the number and the names that were written. */
  lemma WrittenState(L: Library, note: Note, srs: PowersOfTau, proof: ContributionProof)
    requires '\n' !in note.circuitId && '\n' !in note.createdAt && note.round < USIZE / 2
    ensures var state := ParseKv(WrittenDir(L, note, srs, proof).stateTxt);
      RoundOf(state) == Ok(note.round) && Announced(state, "srs_hash").Ok? && "contribution_id" in state
  {
    var digest := HashOf(L, srs);
    StateWritable(note, digest);
    WrittenFileReads(StatePairs(note, digest));
    StateValues(note, digest);
    ReadersAgree(Render(StatePairs(note, digest)));
    DecimalParsesSigned(note.round);
  }

  lemma FormPrepares(h: Host, rounds: Rounds, blobs: Blobs, tier: Tier, head: nat, fetched: Files, before: Dir, after: Dir)
    requires SoundHost(h) && (tier, head) in rounds && Fetch(blobs, rounds[(tier, head)]) == Ok(fetched)
    requires DirOf(h, fetched, Internal("")) == Ok(before)
    requires var state := ParseKv(after.stateTxt); RoundOf(state) == Ok(head + 1) && Announced(state, "srs_hash").Ok?
    ensures var p := Prepare(h, rounds, blobs, tier, UploadForm(h, after));
      p.Ok? && p.value.round == head + 1 && p.value.before == before && p.value.after == after
      && p.value.state == ParseKv(after.stateTxt)
  {
    FormFiles(h, after);
    PreparesOn(h, rounds, blobs, tier, head, fetched, before, UploadForm(h, after), FilesOf(UploadForm(h, after)).value, after);
  }

  lemma PreparesOn(h: Host, rounds: Rounds, blobs: Blobs, tier: Tier, head: nat, fetched: Files, before: Dir, form: Form,
                   sent: Files, after: Dir)
    requires FilesOf(form) == Ok(sent) && DirOf(h, sent, BadRequest("not UTF-8")) == Ok(after)
    requires (tier, head) in rounds && Fetch(blobs, rounds[(tier, head)]) == Ok(fetched)
    requires DirOf(h, fetched, BadGateway("not UTF-8")) == Ok(before)
    requires var state := ParseKv(after.stateTxt); RoundOf(state) == Ok(head + 1) && Announced(state, "srs_hash").Ok?
    ensures Prepare(h, rounds, blobs, tier, form) ==
      var state := ParseKv(after.stateTxt);
      Ok(Prepared(head + 1, Announced(state, "srs_hash").value, rounds[(tier, head)], fetched, sent, before, after, state,
                  ParseKv(after.receiptTxt)))
  {
    assert Predecessor(head + 1) == head;
  }

  lemma FormPasses(h: Host, rounds: Rounds, blobs: Blobs, tier: Tier, form: Form, p: Prepared)
    requires Prepare(h, rounds, blobs, tier, form) == Ok(p) && VerifyDirs(h.L, p.before, p.after).Ok?
    ensures CheckUpload(h, rounds, blobs, tier, form) == Ok(p)
  {
  }

  lemma NamesOrClash(h: Host, g: Ledger, tier: Tier, head: nat) returns (m: int)
    requires SoundHost(h) && ChainInv(h, g) && Exactly(g.store.rounds, tier, head)
    ensures Names(h, g, tier, head) || (1 <= m <= head && TextClash(h, g, tier, m))
  {
    m := 0;
    EveryRoundNames(h, g, tier, head, head);
    if !Names(h, g, tier, head) {
      m :| 1 <= m <= head && TextClash(h, g, tier, m);
    }
  }

  /** A download at the head: the committed string and names. */
  ghost predicate Downloaded(h: Host, g: Ledger, tier: Tier, head: nat, fetched: Files, before: Dir, b: Loaded) {
    DirOf(h, fetched, Internal("")) == Ok(before) && LoadDir(h.L, before) == Ok(b)
    && b.srs == SrsAt(h, g, tier, head) && NumberAt(b.state, "round") == Ok(head)
    && Has(b.state, "srs_hash", HexEncode(HashOf(h.L, b.srs)))
    && Has(b.state, "tier", TierName(tier)) && Has(b.state, "circuit_id", HexEncode(h.circuitId(tier)))
  }

  /** The files fetched at the head collide with those it committed. */
  ghost predicate HeadClash(h: Host, g: Ledger, tier: Tier, head: nat, fetched: Files) {
    (tier, head) in g.history && FetchClash(h, g.history[(tier, head)].sent, SrsAt(h, g, tier, head), fetched)
  }

  lemma HeadDownloads(h: Host, g: Ledger, tier: Tier, head: nat, fetched: Files) returns (before: Dir, b: Loaded)
    requires SoundHost(h) && ChainInv(h, g) && (tier, head) in g.store.rounds && Names(h, g, tier, head)
    requires Fetch(g.store.blobs, g.store.rounds[(tier, head)]) == Ok(fetched) && !HeadClash(h, g, tier, head, fetched)
    ensures Downloaded(h, g, tier, head, fetched, before, b)
  {
    var sent, loaded := CommittedFiles(h, g, tier, head);
    FetchedIsSent(h, g.store.blobs, g.store.rounds[(tier, head)], sent, loaded, fetched);
    before := SameOpens(h, sent, fetched, loaded);
    b := loaded;
    StateSays(h, g, tier, head, loaded);
  }

  /** The directory was made, and uploading it commits the round after the head. */
  ghost predicate NextCommits(h: Host, g: Ledger, tier: Tier, head: nat, made: Result<Dir, ToolError>, now: int,
                              eventId: Option<string>)
  {
    made.Ok?
    && Exactly(Applied(h, g, Contribution(tier, UploadForm(h, made.value), now, eventId)).store.rounds, tier, head + 1)
  }

  /** What becomes of an honest contribution: the fetched files collide, a state file below the
      head does, or it is committed on top of what was fetched. */
  datatype Progress = HeadCollides | TextCollides(m: int) | Committed(before: Dir)

  /** From any reachable chain whose head's files are stored, an honest contribution with
      nonzero draws is written, passes every check and commits the next round, or a collision
      is named. */
  lemma HonestUploadCommits(h: Host, g: Ledger, tier: Tier, head: nat, fetched: Files, participant: string, d: Draw,
                            createdAt: string, now: int, eventId: Option<string>) returns (progress: Progress)
    requires IsPrime(h.L.r) && SoundHost(h) && ChainInv(h, g) && Exactly(g.store.rounds, tier, head)
    requires Fetch(g.store.blobs, g.store.rounds[(tier, head)]) == Ok(fetched) && head + 1 < USIZE / 2
    requires ValidParticipant(participant) && '\n' !in createdAt && DrawInField(h.L.r, d) && NonZeroDraw(d)
    ensures match progress
      case HeadCollides => HeadClash(h, g, tier, head, fetched)
      case TextCollides(m) => 1 <= m <= head && TextClash(h, g, tier, m)
      case Committed(before) =>
        DirOf(h, fetched, Internal("")) == Ok(before)
        && NextCommits(h, g, tier, head, ContributeDir(h.L, before, participant, d, createdAt), now, eventId)
  {
    var m := NamesOrClash(h, g, tier, head);
    if !Names(h, g, tier, head) {
      return TextCollides(m);
    }
    if HeadClash(h, g, tier, head, fetched) {
      return HeadCollides;
    }
    var before, b := HeadDownloads(h, g, tier, head, fetched);
    HeadUsable(h, g, tier, head);
    HonestOnDownload(h, g, tier, head, fetched, before, b, participant, d, createdAt, now, eventId);
    progress := Committed(before);
  }

  lemma HonestOnDownload(h: Host, g: Ledger, tier: Tier, head: nat, fetched: Files, before: Dir, b: Loaded,
                         participant: string, d: Draw, createdAt: string, now: int, eventId: Option<string>)
    requires IsPrime(h.L.r) && SoundHost(h) && Exactly(g.store.rounds, tier, head) && head + 1 < USIZE / 2
    requires Fetch(g.store.blobs, g.store.rounds[(tier, head)]) == Ok(fetched)
    requires Downloaded(h, g, tier, head, fetched, before, b) && Usable(h.L.r, b.srs) && Encodable(b.srs)
    requires ValidParticipant(participant) && '\n' !in createdAt && DrawInField(h.L.r, d) && NonZeroDraw(d)
    ensures NextCommits(h, g, tier, head, ContributeDir(h.L, before, participant, d, createdAt), now, eventId)
  {
    var note := HeadNote(h, tier, head, b.srs, participant, createdAt);
    NoteFollows(h, tier, head, b, participant, createdAt);
    NextIsOneMore(head);
    HonestCommits(h, g, tier, head, fetched, before, b, note, d, now, eventId);
  }

  lemma HonestCommits(h: Host, g: Ledger, tier: Tier, head: nat, fetched: Files, before: Dir, b: Loaded, note: Note,
                      d: Draw, now: int, eventId: Option<string>)
    requires IsPrime(h.L.r) && SoundHost(h) && Exactly(g.store.rounds, tier, head) && head + 1 < USIZE / 2
    requires Fetch(g.store.blobs, g.store.rounds[(tier, head)]) == Ok(fetched)
    requires DirOf(h, fetched, Internal("")) == Ok(before) && LoadDir(h.L, before) == Ok(b)
    requires Usable(h.L.r, b.srs) && Encodable(b.srs) && DrawInField(h.L.r, d) && NonZeroDraw(d)
    requires Follows(h.L, b, note) && ReceiptSafe(note) && !EndsInReturn(note.circuitId)
    requires note.kind == "contribution" && ValidParticipant(note.participant) && note.round == head + 1
    ensures NextCommits(h, g, tier, head, ContributeDir(h.L, before, note.participant, d, note.createdAt), now, eventId)
  {
    var after := WrittenDir(h.L, note, Contributed(h.L.r, b.srs, d), ProofOf(h.L.r, d));
    HonestWrites(h.L, before, b, note, d);
    WrittenState(h.L, note, Contributed(h.L.r, b.srs, d), ProofOf(h.L.r, d));
    FormCommits(h, g, tier, head, fetched, before, after, now, eventId);
  }

  lemma HeadUsable(h: Host, g: Ledger, tier: Tier, head: int)
    requires IsPrime(h.L.r) && SoundHost(h) && ChainInv(h, g) && (tier, head) in g.store.rounds
    ensures Usable(h.L.r, SrsAt(h, g, tier, head)) && Encodable(SrsAt(h, g, tier, head))
  {
    CommittedUsable(h, g, tier, head);
    var sent, loaded := CommittedFiles(h, g, tier, head);
    OpenedParts(h, sent, loaded);
  }

  lemma FormCommits(h: Host, g: Ledger, tier: Tier, head: nat, fetched: Files, before: Dir, after: Dir, now: int,
                    eventId: Option<string>)
    requires SoundHost(h) && Exactly(g.store.rounds, tier, head)
    requires Fetch(g.store.blobs, g.store.rounds[(tier, head)]) == Ok(fetched)
    requires DirOf(h, fetched, Internal("")) == Ok(before) && VerifyDirs(h.L, before, after).Ok?
    requires var state := ParseKv(after.stateTxt);
      RoundOf(state) == Ok(head + 1) && Announced(state, "srs_hash").Ok? && "contribution_id" in state
    ensures Exactly(Applied(h, g, Contribution(tier, UploadForm(h, after), now, eventId)).store.rounds, tier, head + 1)
  {
    FormPrepares(h, g.store.rounds, g.store.blobs, tier, head, fetched, before, after);
    var p := Prepare(h, g.store.rounds, g.store.blobs, tier, UploadForm(h, after)).value;
    FormPasses(h, g.store.rounds, g.store.blobs, tier, UploadForm(h, after), p);
    CheckedCommits(h, g, tier, UploadForm(h, after), p, head, now, eventId);
  }

  lemma CheckedCommits(h: Host, g: Ledger, tier: Tier, form: Form, p: Prepared, head: int, now: int, eventId: Option<string>)
    requires CheckUpload(h, g.store.rounds, g.store.blobs, tier, form) == Ok(p)
    requires p.round == head + 1 && "contribution_id" in p.state && Exactly(g.store.rounds, tier, head)
    ensures Exactly(Applied(h, g, Contribution(tier, form, now, eventId)).store.rounds, tier, head + 1)
  {
    RecordedIs(h, g, tier, p, now, eventId);
    NextExactly(g.store.rounds, tier, head, NewRow(h, p, now, eventId));
  }

  lemma NextExactly(rounds: Rounds, tier: Tier, head: int, row: Round)
    requires Exactly(rounds, tier, head)
    ensures (tier, head + 1) !in rounds && Exactly(rounds[(tier, head + 1) := row], tier, head + 1)
  {
  }
}
