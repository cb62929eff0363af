/** The rounds table of the ceremony coordinator, its content-addressed blobs, and the chain
    of verified contributions they record. */
module RoundChain {
  import opened PrimeField
  import opened Bytes
  import opened Results
  import opened Text
  import opened Ceremony
  import opened SrsCodec
  import opened Transcript
  import opened CeremonyTool

  /** The libraries a coordinator runs on; UTF-8 and the circuit ids are kept abstract. */
  datatype Host = Host(
    L: Library, fromUtf8: seq<byte> -> Option<string>, toUtf8: string -> seq<byte>, circuitId: Tier -> seq<byte>)

  ghost predicate SoundHost(h: Host) {
    Sound(h.L) && forall s :: h.fromUtf8(h.toUtf8(s)) == Some(s)
  }

  datatype Round = Round(
    contributionId: string, circuitId: string, srsHash: string, stateTxtHash: string, receiptHash: string,
    participant: Option<string>, eventId: Option<string>, prevEventId: Option<string>, createdAt: int)

  /** Primary key: tier and round. */
  type Rounds = map<(Tier, int), Round>

  type Blobs = map<string, seq<byte>>

  type Form = map<string, seq<byte>>

  datatype Files = Files(stateSrs: seq<byte>, stateTxt: seq<byte>, receipt: seq<byte>)

  datatype HttpError =
    | BadRequest(what: string)
    | NotVerified(reason: ToolError)
    | Conflict(what: string)
    | NotFound(what: string)
    | BadGateway(what: string)
    | Unavailable(what: string)
    | Internal(what: string)

  // ------------------------------------------------------------------------ blobs

  function BlobKey(h: Host, data: seq<byte>): string {
    HexEncode(h.L.sha(data))
  }

  function Put(h: Host, blobs: Blobs, data: seq<byte>): Blobs {
    blobs[BlobKey(h, data) := data]
  }

  function PutAll(h: Host, blobs: Blobs, files: Files): Blobs {
    Put(h, Put(h, Put(h, blobs, files.stateSrs), files.stateTxt), files.receipt)
  }

  ghost predicate ContentAddressed(h: Host, blobs: Blobs) {
    forall key :: key in blobs ==> key == BlobKey(h, blobs[key])
  }

  function Get(blobs: Blobs, key: string, what: string): Result<seq<byte>, HttpError> {
    if key in blobs then Ok(blobs[key]) else Err(BadGateway(what))
  }

  function Fetch(blobs: Blobs, row: Round): Result<Files, HttpError> {
    var stateSrs :- Get(blobs, row.srsHash, "state.srs");
    var stateTxt :- Get(blobs, row.stateTxtHash, "state.txt");
    var receipt :- Get(blobs, row.receiptHash, "receipt");
    Ok(Files(stateSrs, stateTxt, receipt))
  }

  // ------------------------------------------------------------------- committing

  function Part(form: Form, name: string): Result<seq<byte>, HttpError> {
    if name in form then Ok(form[name]) else Err(BadRequest(name))
  }

  function FilesOf(form: Form): Result<Files, HttpError> {
    var stateSrs :- Part(form, "state_srs");
    var stateTxt :- Part(form, "state_txt");
    var receipt :- Part(form, "receipt");
    Ok(Files(stateSrs, stateTxt, receipt))
  }

  function Utf8(h: Host, bytes: seq<byte>, error: HttpError): Result<string, HttpError> {
    match h.fromUtf8(bytes) case Some(s) => Ok(s) case None => Err(error)
  }

  function DirOf(h: Host, files: Files, error: HttpError): Result<Dir, HttpError> {
    var stateTxt :- Utf8(h, files.stateTxt, error);
    var receiptTxt :- Utf8(h, files.receipt, error);
    Ok(Dir(stateTxt, receiptTxt, files.stateSrs))
  }

  function RoundOf(kv: Kv): Result<int, HttpError> {
    var missing := Err(BadRequest("round"));
    if "round" !in kv then missing
    else match ParseI64(kv["round"]) case Some(n) => Ok(n) case None => missing
  }

  /** One less, in 64 signed bits. */
  function Predecessor(round: int): int {
    if round == -(USIZE / 2) then USIZE / 2 - 1 else round - 1
  }

  function Announced(kv: Kv, key: string): Result<string, HttpError> {
    if key in kv then Ok(kv[key]) else Err(BadRequest(key))
  }

  function Lookup(kv: Kv, key: string): Option<string> {
    if key in kv then Some(kv[key]) else None
  }

  /** An upload ready for the tool, next to the round before it. */
  datatype Prepared = Prepared(
    round: int, srsHash: string, prev: Round, fetched: Files, sent: Files, before: Dir, after: Dir, state: Kv, receipt: Kv)

  function Prepare(h: Host, rounds: Rounds, blobs: Blobs, tier: Tier, form: Form): Result<Prepared, HttpError> {
    var sent :- FilesOf(form);
    var after :- DirOf(h, sent, BadRequest("not UTF-8"));
    var state := ParseKv(after.stateTxt);
    var round :- RoundOf(state);
    var srsHash :- Announced(state, "srs_hash");
    var at := (tier, Predecessor(round));
    :- Need(at in rounds, Conflict("previous round not found"));
    var fetched :- Fetch(blobs, rounds[at]);
    var before :- DirOf(h, fetched, BadGateway("not UTF-8"));
    Ok(Prepared(round, srsHash, rounds[at], fetched, sent, before, after, state, ParseKv(after.receiptTxt)))
  }

  function CheckUpload(h: Host, rounds: Rounds, blobs: Blobs, tier: Tier, form: Form): Result<Prepared, HttpError> {
    match Prepare(h, rounds, blobs, tier, form)
    case Err(e) => Err(e)
    case Ok(p) => match VerifyDirs(h.L, p.before, p.after) case Err(e) => Err(NotVerified(e)) case Ok(_) => Ok(p)
  }

  datatype Store = Store(rounds: Rounds, blobs: Blobs)

  function NewRow(h: Host, c: Prepared, now: int, eventId: Option<string>): Round
    requires "contribution_id" in c.state
  {
    Round(c.state["contribution_id"], if "circuit_id" in c.state then c.state["circuit_id"] else "",
          c.srsHash, BlobKey(h, c.sent.stateTxt), BlobKey(h, c.sent.receipt),
          Lookup(c.receipt, "participant"), eventId, c.prev.eventId, now)
  }

  /** The commit: blobs are published before the row is inserted, and the insert fails on an
      existing key.  The clock and the published event id are inputs. */
  function Commit(h: Host, s: Store, tier: Tier, form: Form, now: int, eventId: Option<string>)
    : (Store, Result<Prepared, HttpError>)
  {
    InsertRound(h, s, tier, CheckUpload(h, s.rounds, s.blobs, tier, form), now, eventId)
  }

  function InsertRound(h: Host, s: Store, tier: Tier, checked: Result<Prepared, HttpError>, now: int, eventId: Option<string>)
    : (Store, Result<Prepared, HttpError>)
  {
    match checked
    case Err(e) => (s, Err(e))
    case Ok(c) =>
      var blobs := PutAll(h, s.blobs, c.sent);
      if "contribution_id" !in c.state then (Store(s.rounds, blobs), Err(BadRequest("contribution_id")))
      else if (tier, c.round) in s.rounds then (Store(s.rounds, blobs), Err(Internal("insert")))
      else (Store(s.rounds[(tier, c.round) := NewRow(h, c, now, eventId)], blobs), Ok(c))
  }

  const SEED_NAME: string := "coordinator-seed"

  predicate NoRounds(rounds: Rounds, tier: Tier) {
    forall key :: key in rounds ==> key.0 != tier || key.1 < 0
  }

  function SeedFiles(h: Host, tier: Tier, d: Draw, createdAt: string): Result<Files, ToolError> {
    var dir :- InitDir(h.L, tier, h.circuitId(tier), SEED_NAME, d, createdAt);
    Ok(Files(dir.stateSrs, h.toUtf8(dir.stateTxt), h.toUtf8(dir.receiptTxt)))
  }

  function SeedRow(h: Host, files: Files, state: Kv, now: int, eventId: Option<string>): Round
    requires "srs_hash" in state && "contribution_id" in state && "circuit_id" in state
  {
    Round(state["contribution_id"], state["circuit_id"], state["srs_hash"], BlobKey(h, files.stateTxt),
          BlobKey(h, files.receipt), Some(SEED_NAME), eventId, None, now)
  }

  /** Round 0, once per tier. */
  function Seed(h: Host, s: Store, tier: Tier, d: Draw, createdAt: string, now: int, eventId: Option<string>)
    : (Store, Result<Option<Files>, HttpError>)
  {
    if !NoRounds(s.rounds, tier) then (s, Ok(None))
    else InsertSeed(h, s, tier, SeedFiles(h, tier, d, createdAt), now, eventId)
  }

  function InsertSeed(h: Host, s: Store, tier: Tier, made: Result<Files, ToolError>, now: int, eventId: Option<string>)
    : (Store, Result<Option<Files>, HttpError>)
  {
    match made
    case Err(e) => (s, Err(NotVerified(e)))
    case Ok(files) =>
      match h.fromUtf8(files.stateTxt)
      case None => (s, Err(Internal("utf-8")))
      case Some(text) =>
        var state := ParseKv(text);
        if "srs_hash" !in state || "contribution_id" !in state || "circuit_id" !in state then (s, Err(Internal("state.txt")))
        else
          (Store(s.rounds[(tier, 0) := SeedRow(h, files, state, now, eventId)], PutAll(h, s.blobs, files)), Ok(Some(files)))
  }

  // ------------------------------------------------------------------------- runs

  /** The files a round was accepted with: those fetched for the round before, and those sent. */
  datatype Entry = Entry(fetched: Option<Files>, sent: Files)

  datatype Ledger = Ledger(store: Store, history: map<(Tier, int), Entry>)

  datatype RoundEvent =
    | Contribution(tier: Tier, form: Form, now: int, eventId: Option<string>)
    | Seeding(tier: Tier, draw: Draw, createdAt: string, now: int, eventId: Option<string>)
    | Upload(data: seq<byte>)

  function Applied(h: Host, g: Ledger, e: RoundEvent): Ledger {
    match e
    case Contribution(tier, form, now, eventId) =>
      Recorded(h, g, tier, CheckUpload(h, g.store.rounds, g.store.blobs, tier, form), now, eventId)
    case Seeding(tier, draw, createdAt, now, eventId) =>
      if NoRounds(g.store.rounds, tier) then RecordedSeed(h, g, tier, SeedFiles(h, tier, draw, createdAt), now, eventId) else g
    case Upload(data) => Ledger(Store(g.store.rounds, Put(h, g.store.blobs, data)), g.history)
  }

  function Recorded(h: Host, g: Ledger, tier: Tier, checked: Result<Prepared, HttpError>, now: int, eventId: Option<string>)
    : Ledger
  {
    var (store, res) := InsertRound(h, g.store, tier, checked, now, eventId);
    Ledger(store, match res
                  case Ok(c) => g.history[(tier, c.round) := Entry(Some(c.fetched), c.sent)]
                  case Err(_) => g.history)
  }

  function RecordedSeed(h: Host, g: Ledger, tier: Tier, made: Result<Files, ToolError>, now: int, eventId: Option<string>)
    : Ledger
  {
    var (store, res) := InsertSeed(h, g.store, tier, made, now, eventId);
    Ledger(store, match res
                  case Ok(Some(files)) => g.history[(tier, 0) := Entry(None, files)]
                  case _ => g.history)
  }

  /** Timestamps are single lines and draws are scalars. */
  ghost predicate EventOk(h: Host, e: RoundEvent) {
    e.Seeding? ==> DrawInField(h.L.r, e.draw) && '\n' !in e.createdAt
  }

  ghost predicate EventsOk(h: Host, events: seq<RoundEvent>) {
    forall i :: 0 <= i < |events| ==> EventOk(h, events[i])
  }

  function After(h: Host, events: seq<RoundEvent>): Ledger {
    if events == [] then Ledger(Store(map[], map[]), map[])
    else Applied(h, After(h, events[..|events| - 1]), events[|events| - 1])
  }

  // -------------------------------------------------------------------- invariant

  function Opened(h: Host, files: Files): Option<Loaded> {
    match DirOf(h, files, Internal(""))
    case Err(_) => None
    case Ok(dir) => match LoadDir(h.L, dir) case Err(_) => None case Ok(loaded) => Some(loaded)
  }

  /** The row names its files by their hashes, and its SRS by the hash of the string. */
  ghost predicate Named(h: Host, row: Round, sent: Files) {
    Opened(h, sent).Some?
    && row.srsHash == HexEncode(HashOf(h.L, Opened(h, sent).value.srs))
    && row.stateTxtHash == BlobKey(h, sent.stateTxt) && row.receiptHash == BlobKey(h, sent.receipt)
  }

  /** The round was checked against what was stored under the hashes of the round before. */
  ghost predicate Chained(h: Host, prev: Round, row: Round, round: int, e: Entry) {
    e.fetched.Some? && Opened(h, e.fetched.value).Some? && Opened(h, e.sent).Some?
    && BlobKey(h, e.fetched.value.stateSrs) == prev.srsHash
    && BlobKey(h, e.fetched.value.stateTxt) == prev.stateTxtHash
    && BlobKey(h, e.fetched.value.receipt) == prev.receiptHash
    && row.prevEventId == prev.eventId
    && var a := Opened(h, e.sent).value;
       NumberAt(a.state, "round") == Ok(round)
       && exists proof :: Linked(h.L, Opened(h, e.fetched.value).value, a, proof)
  }

  ghost predicate Seeded(h: Host, tier: Tier, e: Entry) {
    e.fetched.None?
    && exists d: Draw, createdAt: string ::
         DrawInField(h.L.r, d) && '\n' !in createdAt && SeedFiles(h, tier, d, createdAt) == Ok(e.sent)
  }

  /** What every row satisfies, given the row before it. */
  ghost predicate RowOk(h: Host, tier: Tier, n: int, row: Round, prev: Option<Round>, e: Entry) {
    Named(h, row, e.sent)
    && if n == 0 then Seeded(h, tier, e) else prev.Some? && Chained(h, prev.value, row, n, e)
  }

  /** The rounds of a tier are 0 to head; none when head is -1. */
  ghost predicate Exactly(rounds: Rounds, tier: Tier, head: int) {
    head >= -1 && forall n :: (tier, n) in rounds <==> 0 <= n <= head
  }

  ghost predicate Contiguous(rounds: Rounds, tier: Tier) {
    exists head :: Exactly(rounds, tier, head)
  }

  type RowRule = (Tier, int, Round, Option<Round>, Entry) -> bool

  function RowBefore(rounds: Rounds, tier: Tier, n: int): Option<Round> {
    if (tier, n - 1) in rounds then Some(rounds[(tier, n - 1)]) else None
  }

  ghost predicate EachRow(rule: RowRule, g: Ledger) {
    forall key :: key in g.store.rounds ==>
      key in g.history
      && rule(key.0, key.1, g.store.rounds[key], RowBefore(g.store.rounds, key.0, key.1), g.history[key])
  }

  ghost function Rule(h: Host): RowRule {
    (tier, n, row, prev, e) => RowOk(h, tier, n, row, prev, e)
  }

  ghost predicate ChainOf(h: Host, rule: RowRule, g: Ledger) {
    ContentAddressed(h, g.store.blobs) && EachRow(rule, g) && forall tier :: Contiguous(g.store.rounds, tier)
  }

  ghost predicate ChainInv(h: Host, g: Ledger) {
    ChainOf(h, Rule(h), g)
  }

  lemma PutKeeps(h: Host, blobs: Blobs, data: seq<byte>)
    requires ContentAddressed(h, blobs)
    ensures ContentAddressed(h, Put(h, blobs, data))
  {
  }

  lemma PutAllKeeps(h: Host, blobs: Blobs, files: Files)
    requires ContentAddressed(h, blobs)
    ensures ContentAddressed(h, PutAll(h, blobs, files))
  {
    PutKeeps(h, blobs, files.stateSrs);
    PutKeeps(h, Put(h, blobs, files.stateSrs), files.stateTxt);
    PutKeeps(h, Put(h, Put(h, blobs, files.stateSrs), files.stateTxt), files.receipt);
  }

  lemma ContiguousKeeps(rounds: Rounds, tier: Tier, n: int, row: Round, t: Tier)
    requires (tier, n) !in rounds && n >= 0 && (n > 0 ==> (tier, n - 1) in rounds)
    requires Contiguous(rounds, t)
    ensures Contiguous(rounds[(tier, n) := row], t)
  {
    var rounds' := rounds[(tier, n) := row];
    var head :| Exactly(rounds, t, head);
    if t == tier {
      assert n == head + 1;
      assert Exactly(rounds', t, n);
    } else {
      assert Exactly(rounds', t, head);
    }
  }

  function WithRow(g: Ledger, tier: Tier, n: int, row: Round, e: Entry, blobs: Blobs): Ledger {
    Ledger(Store(g.store.rounds[(tier, n) := row], blobs), g.history[(tier, n) := e])
  }

  /** A row next to existing ones changes no other row and no row before one. */
  lemma EachRowKeeps(rule: RowRule, g: Ledger, tier: Tier, n: int, row: Round, e: Entry, blobs: Blobs)
    requires EachRow(rule, g) && Contiguous(g.store.rounds, tier)
    requires (tier, n) !in g.store.rounds && n >= 0
    requires rule(tier, n, row, RowBefore(g.store.rounds, tier, n), e)
    ensures EachRow(rule, WithRow(g, tier, n, row, e, blobs))
  {
    var rounds, rounds' := g.store.rounds, g.store.rounds[(tier, n) := row];
    var head :| Exactly(rounds, tier, head);
    forall key | key in rounds'
      ensures RowBefore(rounds', key.0, key.1) == RowBefore(rounds, key.0, key.1)
    {
    }
  }

  /** A fresh row that fits keeps the chain. */
  lemma RowKeeps(h: Host, rule: RowRule, g: Ledger, tier: Tier, n: int, row: Round, e: Entry, blobs: Blobs)
    requires ChainOf(h, rule, g) && ContentAddressed(h, blobs) && (tier, n) !in g.store.rounds && n >= 0
    requires n > 0 ==> (tier, n - 1) in g.store.rounds
    requires rule(tier, n, row, RowBefore(g.store.rounds, tier, n), e)
    ensures ChainOf(h, rule, WithRow(g, tier, n, row, e, blobs))
  {
    EachRowKeeps(rule, g, tier, n, row, e, blobs);
    var rounds' := g.store.rounds[(tier, n) := row];
    forall t: Tier ensures Contiguous(rounds', t) {
      ContiguousKeeps(g.store.rounds, tier, n, row, t);
    }
  }

  lemma RecordKeeps(h: Host, rule: RowRule, g: Ledger, tier: Tier, checked: Result<Prepared, HttpError>, now: int,
                    eventId: Option<string>)
    requires ChainOf(h, rule, g)
    requires checked.Ok? ==> UploadFits(h, rule, g.store.rounds, tier, checked.value, now, eventId)
    ensures ChainOf(h, rule, Recorded(h, g, tier, checked, now, eventId))
  {
    if checked.Ok? {
      var p := checked.value;
      PutAllKeeps(h, g.store.blobs, p.sent);
      if (tier, p.round) !in g.store.rounds {
        RowKeeps(h, rule, g, tier, p.round, NewRow(h, p, now, eventId), Entry(Some(p.fetched), p.sent),
                 PutAll(h, g.store.blobs, p.sent));
      }
    }
  }

  ghost predicate UploadFits(h: Host, rule: RowRule, rounds: Rounds, tier: Tier, p: Prepared, now: int,
                             eventId: Option<string>)
  {
    "contribution_id" in p.state && p.round >= 1 && (tier, p.round - 1) in rounds
    && rule(tier, p.round, NewRow(h, p, now, eventId), RowBefore(rounds, tier, p.round), Entry(Some(p.fetched), p.sent))
  }

  ghost predicate SeedingFits(h: Host, rule: RowRule, rounds: Rounds, tier: Tier, files: Files, now: int,
                              eventId: Option<string>)
  {
    h.fromUtf8(files.stateTxt).Some?
    && var state := ParseKv(h.fromUtf8(files.stateTxt).value);
       "srs_hash" in state && "contribution_id" in state && "circuit_id" in state
       && rule(tier, 0, SeedRow(h, files, state, now, eventId), RowBefore(rounds, tier, 0), Entry(None, files))
  }

  lemma RecordSeedKeeps(h: Host, rule: RowRule, g: Ledger, tier: Tier, made: Result<Files, ToolError>, now: int,
                        eventId: Option<string>)
    requires ChainOf(h, rule, g) && NoRounds(g.store.rounds, tier)
    requires made.Ok? ==> SeedingFits(h, rule, g.store.rounds, tier, made.value, now, eventId)
    ensures ChainOf(h, rule, RecordedSeed(h, g, tier, made, now, eventId))
  {
    if made.Ok? {
      var files := made.value;
      var row := SeedRow(h, files, ParseKv(h.fromUtf8(files.stateTxt).value), now, eventId);
      PutAllKeeps(h, g.store.blobs, files);
      RowKeeps(h, rule, g, tier, 0, row, Entry(None, files), PutAll(h, g.store.blobs, files));
    }
  }

  lemma PreparedParts(h: Host, rounds: Rounds, blobs: Blobs, tier: Tier, form: Form)
    requires Prepare(h, rounds, blobs, tier, form).Ok?
    ensures var p := Prepare(h, rounds, blobs, tier, form).value;
      p.state == ParseKv(p.after.stateTxt) && p.receipt == ParseKv(p.after.receiptTxt)
      && RoundOf(p.state) == Ok(p.round) && Announced(p.state, "srs_hash") == Ok(p.srsHash)
      && (tier, Predecessor(p.round)) in rounds && p.prev == rounds[(tier, Predecessor(p.round))]
      && Fetch(blobs, p.prev) == Ok(p.fetched)
      && DirOf(h, p.fetched, Internal("")) == Ok(p.before) && DirOf(h, p.sent, Internal("")) == Ok(p.after)
  {
  }

  lemma OpenedDir(h: Host, files: Files, dir: Dir)
    requires DirOf(h, files, Internal("")) == Ok(dir) && LoadDir(h.L, dir).Ok?
    ensures Opened(h, files) == Some(LoadDir(h.L, dir).value)
  {
  }

  /** What the tool saw of an upload, and what the coordinator read from it. */
  ghost predicate Seen(h: Host, rounds: Rounds, blobs: Blobs, tier: Tier, p: Prepared,
                       b: Loaded, a: Loaded, proof: ContributionProof) {
    Linked(h.L, b, a, proof) && p.state == a.state && p.receipt == a.receipt
    && RoundOf(p.state) == Ok(p.round) && Announced(p.state, "srs_hash") == Ok(p.srsHash)
    && (tier, Predecessor(p.round)) in rounds && p.prev == rounds[(tier, Predecessor(p.round))]
    && Fetch(blobs, p.prev) == Ok(p.fetched)
  }

  lemma LoadedKv(L: Library, dir: Dir)
    requires LoadDir(L, dir).Ok?
    ensures ReadKv(dir.stateTxt) == Ok(LoadDir(L, dir).value.state)
    ensures ReadKv(dir.receiptTxt) == Ok(LoadDir(L, dir).value.receipt)
  {
  }

  /** Once the tool has accepted, both readers agree on both text files. */
  lemma AcceptedUpload(h: Host, rounds: Rounds, blobs: Blobs, tier: Tier, form: Form)
    returns (p: Prepared, b: Loaded, a: Loaded, proof: ContributionProof)
    requires CheckUpload(h, rounds, blobs, tier, form).Ok?
    ensures CheckUpload(h, rounds, blobs, tier, form) == Ok(p)
    ensures Opened(h, p.fetched) == Some(b) && Opened(h, p.sent) == Some(a)
    ensures Seen(h, rounds, blobs, tier, p, b, a, proof)
  {
    PreparedParts(h, rounds, blobs, tier, form);
    p := CheckUpload(h, rounds, blobs, tier, form).value;
    CheckedStep(h.L, p.before, p.after);
    b, a := LoadDir(h.L, p.before).value, LoadDir(h.L, p.after).value;
    proof :| Linked(h.L, b, a, proof);
    OpenedDir(h, p.fetched, p.before);
    OpenedDir(h, p.sent, p.after);
    LoadedKv(h.L, p.after);
    ReadersAgree(p.after.stateTxt);
    ReadersAgree(p.after.receiptTxt);
  }

  /** The number of an accepted round has a predecessor that does not wrap. */
  lemma RoundIsPositive(h: Host, rounds: Rounds, blobs: Blobs, tier: Tier, p: Prepared,
                        b: Loaded, a: Loaded, proof: ContributionProof)
    requires Seen(h, rounds, blobs, tier, p, b, a, proof)
    requires forall key :: key in rounds ==> key.1 >= 0
    ensures p.round >= 1 && (tier, p.round - 1) in rounds && p.prev == rounds[(tier, p.round - 1)]
    ensures NumberAt(a.state, "round") == Ok(p.round)
  {
    LinkedNumber(h.L, b, a, proof);
    SameRound(a.state, p.round);
    NoWrap(rounds, tier, p.round);
  }

  lemma LinkedNumber(L: Library, b: Loaded, a: Loaded, proof: ContributionProof)
    requires Linked(L, b, a, proof)
    ensures NumberAt(a.state, "round").Ok?
  {
  }

  lemma SameRound(kv: Kv, round: int)
    requires NumberAt(kv, "round").Ok? && RoundOf(kv) == Ok(round)
    ensures NumberAt(kv, "round") == Ok(round) && round >= 0
  {
    SameNumber(kv["round"]);
  }

  lemma NoWrap(rounds: Rounds, tier: Tier, n: int)
    requires n >= 0 && (tier, Predecessor(n)) in rounds
    requires forall key :: key in rounds ==> key.1 >= 0
    ensures n >= 1 && Predecessor(n) == n - 1
  {
    assert (tier, Predecessor(n)).1 >= 0;
  }

  lemma FetchedByHash(h: Host, blobs: Blobs, row: Round)
    requires ContentAddressed(h, blobs) && Fetch(blobs, row).Ok?
    ensures var f := Fetch(blobs, row).value;
      BlobKey(h, f.stateSrs) == row.srsHash && BlobKey(h, f.stateTxt) == row.stateTxtHash
      && BlobKey(h, f.receipt) == row.receiptHash
  {
  }

  /** An accepted upload is a link: checked by the tool against blobs stored under the
      hashes of the row before. */
  lemma UploadLinks(h: Host, rounds: Rounds, blobs: Blobs, tier: Tier, p: Prepared,
                    b: Loaded, a: Loaded, proof: ContributionProof, now: int, eventId: Option<string>)
    requires ContentAddressed(h, blobs) && Seen(h, rounds, blobs, tier, p, b, a, proof)
    requires Opened(h, p.fetched) == Some(b) && Opened(h, p.sent) == Some(a)
    requires forall key :: key in rounds ==> key.1 >= 0
    ensures "contribution_id" in p.state
    ensures Named(h, NewRow(h, p, now, eventId), p.sent)
    ensures Chained(h, p.prev, NewRow(h, p, now, eventId), p.round, Entry(Some(p.fetched), p.sent))
  {
    RoundIsPositive(h, rounds, blobs, tier, p, b, a, proof);
    FetchedByHash(h, blobs, p.prev);
  }

  lemma KeysNonNegative(g: Ledger)
    requires forall tier :: Contiguous(g.store.rounds, tier)
    ensures forall key :: key in g.store.rounds ==> key.1 >= 0
  {
    forall key | key in g.store.rounds ensures key.1 >= 0 {
      assert Contiguous(g.store.rounds, key.0);
      var head :| Exactly(g.store.rounds, key.0, head);
      assert key == (key.0, key.1);
    }
  }

  lemma LinkFits(h: Host, tier: Tier, n: int, row: Round, prev: Round, e: Entry)
    requires n >= 1 && Named(h, row, e.sent) && Chained(h, prev, row, n, e)
    ensures Rule(h)(tier, n, row, Some(prev), e)
  {
  }

  lemma SeedFits(h: Host, tier: Tier, row: Round, prev: Option<Round>, e: Entry)
    requires Named(h, row, e.sent) && Seeded(h, tier, e)
    ensures Rule(h)(tier, 0, row, prev, e)
  {
  }

  lemma UploadRule(h: Host, rounds: Rounds, blobs: Blobs, tier: Tier, p: Prepared,
                   b: Loaded, a: Loaded, proof: ContributionProof, now: int, eventId: Option<string>)
    requires ContentAddressed(h, blobs) && Seen(h, rounds, blobs, tier, p, b, a, proof)
    requires Opened(h, p.fetched) == Some(b) && Opened(h, p.sent) == Some(a)
    requires forall key :: key in rounds ==> key.1 >= 0
    ensures "contribution_id" in p.state && p.round >= 1
    ensures Rule(h)(tier, p.round, NewRow(h, p, now, eventId), Some(p.prev), Entry(Some(p.fetched), p.sent))
  {
    RoundIsPositive(h, rounds, blobs, tier, p, b, a, proof);
    UploadLinks(h, rounds, blobs, tier, p, b, a, proof, now, eventId);
    LinkFits(h, tier, p.round, NewRow(h, p, now, eventId), p.prev, Entry(Some(p.fetched), p.sent));
  }

  lemma FitsOnPrev(h: Host, rule: RowRule, rounds: Rounds, tier: Tier, p: Prepared, now: int, eventId: Option<string>)
    requires "contribution_id" in p.state && p.round >= 1
    requires (tier, p.round - 1) in rounds && p.prev == rounds[(tier, p.round - 1)]
    requires rule(tier, p.round, NewRow(h, p, now, eventId), Some(p.prev), Entry(Some(p.fetched), p.sent))
    ensures UploadFits(h, rule, rounds, tier, p, now, eventId)
  {
  }

  /** The row of an accepted upload fits on top of the row before it. */
  lemma SeenFits(h: Host, rounds: Rounds, blobs: Blobs, tier: Tier, p: Prepared,
                 b: Loaded, a: Loaded, proof: ContributionProof, now: int, eventId: Option<string>)
    requires ContentAddressed(h, blobs) && Seen(h, rounds, blobs, tier, p, b, a, proof)
    requires Opened(h, p.fetched) == Some(b) && Opened(h, p.sent) == Some(a)
    requires forall key :: key in rounds ==> key.1 >= 0
    ensures UploadFits(h, Rule(h), rounds, tier, p, now, eventId)
  {
    RoundIsPositive(h, rounds, blobs, tier, p, b, a, proof);
    UploadRule(h, rounds, blobs, tier, p, b, a, proof, now, eventId);
    FitsOnPrev(h, Rule(h), rounds, tier, p, now, eventId);
  }

  lemma ContributionKeeps(h: Host, g: Ledger, tier: Tier, form: Form, now: int, eventId: Option<string>)
    requires ChainInv(h, g)
    ensures ChainInv(h, Recorded(h, g, tier, CheckUpload(h, g.store.rounds, g.store.blobs, tier, form), now, eventId))
  {
    var checked := CheckUpload(h, g.store.rounds, g.store.blobs, tier, form);
    if checked.Ok? {
      var p, b, a, proof := AcceptedUpload(h, g.store.rounds, g.store.blobs, tier, form);
      KeysNonNegative(g);
      SeenFits(h, g.store.rounds, g.store.blobs, tier, p, b, a, proof, now, eventId);
    }
    RecordKeeps(h, Rule(h), g, tier, checked, now, eventId);
  }

  /** What the state file of a seed says. */
  ghost predicate SeedState(h: Host, tier: Tier, srs: PowersOfTau, state: Kv) {
    Has(state, "srs_hash", HexEncode(HashOf(h.L, srs))) && Has(state, "tier", TierName(tier))
    && Has(state, "circuit_id", HexEncode(h.circuitId(tier)))
    && Has(state, "contribution_id", ContributionId(tier, 0, HashOf(h.L, srs)))
    && NumberAt(state, "round") == Ok(0)
  }

  lemma SeedDirLoads(h: Host, tier: Tier, d: Draw, createdAt: string) returns (dir: Dir)
    requires SoundHost(h) && DrawInField(h.L.r, d) && '\n' !in createdAt
    requires InitDir(h.L, tier, h.circuitId(tier), SEED_NAME, d, createdAt).Ok?
    ensures InitDir(h.L, tier, h.circuitId(tier), SEED_NAME, d, createdAt) == Ok(dir)
    ensures LoadDir(h.L, dir).Ok? && LoadDir(h.L, dir).value.srs == Initial(h.L.r, RequiredDegree(tier), d)
    ensures SeedState(h, tier, LoadDir(h.L, dir).value.srs, LoadDir(h.L, dir).value.state)
  {
    var n := InitNote(tier, h.circuitId(tier), SEED_NAME, createdAt);
    var srs, proof := Initial(h.L.r, RequiredDegree(tier), d), ProofOf(h.L.r, d);
    InitParts(h.L, tier, h.circuitId(tier), SEED_NAME, d, createdAt);
    InitNoteSafe(tier, h.circuitId(tier), SEED_NAME, createdAt);
    WrittenDirLoads(h.L, n, srs, proof);
    dir := WrittenDir(h.L, n, srs, proof);
    SeedStateReads(h, tier, n, srs);
  }

  lemma SeedStateReads(h: Host, tier: Tier, n: Note, srs: PowersOfTau)
    requires n.tier == tier && n.round == 0 && n.circuitId == HexEncode(h.circuitId(tier))
    requires '\n' !in n.circuitId && '\n' !in n.createdAt && Chomp(n.circuitId) == n.circuitId
    ensures SeedState(h, tier, srs, KvMap(StatePairs(n, HashOf(h.L, srs))))
  {
    StateValues(n, HashOf(h.L, srs));
    DecimalParses(0);
  }

  lemma SeedFilesAre(h: Host, tier: Tier, d: Draw, createdAt: string, dir: Dir)
    requires SoundHost(h) && InitDir(h.L, tier, h.circuitId(tier), SEED_NAME, d, createdAt) == Ok(dir)
    ensures var files := Files(dir.stateSrs, h.toUtf8(dir.stateTxt), h.toUtf8(dir.receiptTxt));
      SeedFiles(h, tier, d, createdAt) == Ok(files) && DirOf(h, files, Internal("")) == Ok(dir)
  {
  }

  /** What the seed writes opens to the initial string of its draw. */
  lemma SeedOpens(h: Host, tier: Tier, d: Draw, createdAt: string, files: Files) returns (loaded: Loaded)
    requires SoundHost(h) && DrawInField(h.L.r, d) && '\n' !in createdAt
    requires SeedFiles(h, tier, d, createdAt) == Ok(files)
    ensures Opened(h, files) == Some(loaded) && loaded.srs == Initial(h.L.r, RequiredDegree(tier), d)
    ensures SeedState(h, tier, loaded.srs, loaded.state)
    ensures h.fromUtf8(files.stateTxt).Some? && ParseKv(h.fromUtf8(files.stateTxt).value) == loaded.state
  {
    var dir := SeedDirLoads(h, tier, d, createdAt);
    SeedFilesAre(h, tier, d, createdAt, dir);
    OpenedDir(h, files, dir);
    LoadedKv(h.L, dir);
    ReadersAgree(dir.stateTxt);
    loaded := LoadDir(h.L, dir).value;
  }

  lemma SeedNamed(h: Host, files: Files, loaded: Loaded, tier: Tier, now: int, eventId: Option<string>)
    requires Opened(h, files) == Some(loaded) && SeedState(h, tier, loaded.srs, loaded.state)
    ensures Named(h, SeedRow(h, files, loaded.state, now, eventId), files)
  {
  }

  lemma SeededBy(h: Host, tier: Tier, d: Draw, createdAt: string, files: Files)
    requires DrawInField(h.L.r, d) && '\n' !in createdAt && SeedFiles(h, tier, d, createdAt) == Ok(files)
    ensures Seeded(h, tier, Entry(None, files))
  {
  }

  lemma SeedRule(h: Host, rounds: Rounds, tier: Tier, d: Draw, createdAt: string, now: int, eventId: Option<string>,
                 files: Files, loaded: Loaded)
    requires SoundHost(h) && DrawInField(h.L.r, d) && '\n' !in createdAt
    requires SeedFiles(h, tier, d, createdAt) == Ok(files)
    requires Opened(h, files) == Some(loaded) && SeedState(h, tier, loaded.srs, loaded.state)
    requires h.fromUtf8(files.stateTxt).Some? && ParseKv(h.fromUtf8(files.stateTxt).value) == loaded.state
    ensures SeedingFits(h, Rule(h), rounds, tier, files, now, eventId)
  {
    SeedNamed(h, files, loaded, tier, now, eventId);
    SeededBy(h, tier, d, createdAt, files);
    SeedFits(h, tier, SeedRow(h, files, loaded.state, now, eventId), RowBefore(rounds, tier, 0), Entry(None, files));
  }

  lemma SeedingKeeps(h: Host, g: Ledger, tier: Tier, d: Draw, createdAt: string, now: int, eventId: Option<string>)
    requires SoundHost(h) && ChainInv(h, g) && DrawInField(h.L.r, d) && '\n' !in createdAt && NoRounds(g.store.rounds, tier)
    ensures ChainInv(h, RecordedSeed(h, g, tier, SeedFiles(h, tier, d, createdAt), now, eventId))
  {
    var made := SeedFiles(h, tier, d, createdAt);
    if made.Ok? {
      var loaded := SeedOpens(h, tier, d, createdAt, made.value);
      SeedRule(h, g.store.rounds, tier, d, createdAt, now, eventId, made.value, loaded);
    }
    RecordSeedKeeps(h, Rule(h), g, tier, made, now, eventId);
  }

  lemma ChainKept(h: Host, g: Ledger, e: RoundEvent)
    requires SoundHost(h) && ChainInv(h, g) && EventOk(h, e)
    ensures ChainInv(h, Applied(h, g, e))
  {
    match e
    case Contribution(tier, form, now, eventId) => ContributionKeeps(h, g, tier, form, now, eventId);
    case Seeding(tier, draw, createdAt, now, eventId) =>
      if NoRounds(g.store.rounds, tier) {
        SeedingKeeps(h, g, tier, draw, createdAt, now, eventId);
      }
    case Upload(data) => PutKeeps(h, g.store.blobs, data);
  }

  lemma {:induction false} ChainAlways(h: Host, events: seq<RoundEvent>)
    requires SoundHost(h) && EventsOk(h, events)
    ensures ChainInv(h, After(h, events))
    decreases |events|
  {
    if events == [] {
      forall tier: Tier ensures Contiguous(After(h, events).store.rounds, tier) {
        assert Exactly(After(h, events).store.rounds, tier, -1);
      }
    } else {
      ChainAlways(h, events[..|events| - 1]);
      ChainKept(h, After(h, events[..|events| - 1]), events[|events| - 1]);
    }
  }

  // ------------------------------------------------------- what an upload records

  ghost predicate NonNegative(rounds: Rounds) {
    forall key :: key in rounds ==> key.1 >= 0
  }

  /** The blobs of three files, each under the hexadecimal SHA-256 of its bytes. */
  ghost predicate Published(h: Host, blobs: Blobs, blobs': Blobs, files: Files) {
    blobs' == blobs[HexEncode(h.L.sha(files.stateSrs)) := files.stateSrs]
                   [HexEncode(h.L.sha(files.stateTxt)) := files.stateTxt]
                   [HexEncode(h.L.sha(files.receipt)) := files.receipt]
  }

  /** What the coordinator reads of an upload: the three parts of the form, both texts by the
      lenient reader, and the files stored under the hashes of the round before. */
  ghost predicate ReadsUpload(h: Host, s: Store, tier: Tier, form: Form, c: Prepared) {
    "state_srs" in form && "state_txt" in form && "receipt" in form
    && c.sent == Files(form["state_srs"], form["state_txt"], form["receipt"])
    && h.fromUtf8(form["state_txt"]).Some? && c.state == ParseKv(h.fromUtf8(form["state_txt"]).value)
    && h.fromUtf8(form["receipt"]).Some? && c.receipt == ParseKv(h.fromUtf8(form["receipt"]).value)
    && "round" in c.state && ParseI64(c.state["round"]) == Some(c.round)
    && c.round >= 1 && (tier, c.round - 1) in s.rounds && c.prev == s.rounds[(tier, c.round - 1)]
    && c.prev.srsHash in s.blobs && c.prev.stateTxtHash in s.blobs && c.prev.receiptHash in s.blobs
    && c.fetched == Files(s.blobs[c.prev.srsHash], s.blobs[c.prev.stateTxtHash], s.blobs[c.prev.receiptHash])
  }

  /** The row of an accepted upload, field by field. */
  ghost predicate RowSays(h: Host, c: Prepared, now: int, eventId: Option<string>, row: Round) {
    Has(c.state, "contribution_id", row.contributionId) && Has(c.state, "circuit_id", row.circuitId)
    && Has(c.state, "srs_hash", row.srsHash)
    && row.stateTxtHash == HexEncode(h.L.sha(c.sent.stateTxt)) && row.receiptHash == HexEncode(h.L.sha(c.sent.receipt))
    && row.participant.Some? && Has(c.receipt, "participant", row.participant.value)
    && row.eventId == eventId && row.prevEventId == c.prev.eventId && row.createdAt == now
  }

  /** An accepted upload adds the one row with the next number, and its three blobs. */
  ghost predicate CommitRecords(h: Host, s: Store, s': Store, tier: Tier, form: Form, c: Prepared, now: int,
                                eventId: Option<string>) {
    ReadsUpload(h, s, tier, form, c) && Published(h, s.blobs, s'.blobs, c.sent)
    && (tier, c.round) !in s.rounds && (tier, c.round) in s'.rounds
    && s'.rounds == s.rounds[(tier, c.round) := s'.rounds[(tier, c.round)]]
    && RowSays(h, c, now, eventId, s'.rounds[(tier, c.round)])
  }

  lemma UploadIsRead(h: Host, s: Store, tier: Tier, form: Form, c: Prepared)
    requires Prepare(h, s.rounds, s.blobs, tier, form) == Ok(c)
    requires c.round >= 1 && (tier, c.round - 1) in s.rounds && c.prev == s.rounds[(tier, c.round - 1)]
    ensures ReadsUpload(h, s, tier, form, c)
  {
  }

  lemma RowIsSaid(h: Host, c: Prepared, now: int, eventId: Option<string>)
    requires "contribution_id" in c.state && "circuit_id" in c.state && "participant" in c.receipt
    requires Announced(c.state, "srs_hash") == Ok(c.srsHash)
    ensures RowSays(h, c, now, eventId, NewRow(h, c, now, eventId))
  {
  }

  /** The form has its three parts, both texts are UTF-8, and the state names a 64-bit round
      and a hash. */
  ghost predicate FormReads(h: Host, form: Form) {
    "state_srs" in form && "state_txt" in form && "receipt" in form
    && h.fromUtf8(form["state_txt"]).Some? && h.fromUtf8(form["receipt"]).Some?
    && var state := ParseKv(h.fromUtf8(form["state_txt"]).value);
       "round" in state && ParseI64(state["round"]).Some? && "srs_hash" in state
  }

  ghost function RoundIn(h: Host, form: Form): int
    requires FormReads(h, form)
  {
    ParseI64(ParseKv(h.fromUtf8(form["state_txt"]).value)["round"]).value
  }

  /** The key of the round before, one less in 64 signed bits. */
  ghost function KeyBefore(tier: Tier, round: int): (Tier, int) {
    (tier, if round == -0x8000_0000_0000_0000 then 0x7fff_ffff_ffff_ffff else round - 1)
  }

  /** The three files of a row are stored, and both its texts are UTF-8. */
  ghost predicate Served(h: Host, blobs: Blobs, row: Round) {
    row.srsHash in blobs && row.stateTxtHash in blobs && row.receiptHash in blobs
    && h.fromUtf8(blobs[row.stateTxtHash]).Some? && h.fromUtf8(blobs[row.receiptHash]).Some?
  }

  /** The directory of three files. */
  ghost function DirIn(h: Host, stateSrs: seq<byte>, stateTxt: seq<byte>, receipt: seq<byte>): Dir
    requires h.fromUtf8(stateTxt).Some? && h.fromUtf8(receipt).Some?
  {
    Dir(h.fromUtf8(stateTxt).value, h.fromUtf8(receipt).value, stateSrs)
  }

  ghost function ToolSays(h: Host, blobs: Blobs, row: Round, form: Form): Result<(), ToolError>
    requires FormReads(h, form) && Served(h, blobs, row)
  {
    VerifyDirs(h.L, DirIn(h, blobs[row.srsHash], blobs[row.stateTxtHash], blobs[row.receiptHash]),
               DirIn(h, form["state_srs"], form["state_txt"], form["receipt"]))
  }

  /** The answers to an upload, in the order of the checks: a form that does not read is a
      bad request, a missing round before it a conflict, missing files of that a bad gateway,
      and then the tool decides. */
  ghost predicate Answers(h: Host, rounds: Rounds, blobs: Blobs, tier: Tier, form: Form, answer: Result<Prepared, HttpError>) {
    if !FormReads(h, form) then answer.Err? && answer.error.BadRequest?
    else
      var key := KeyBefore(tier, RoundIn(h, form));
      if key !in rounds then answer.Err? && answer.error.Conflict?
      else if !Served(h, blobs, rounds[key]) then answer.Err? && answer.error.BadGateway?
      else match ToolSays(h, blobs, rounds[key], form)
           case Err(e) => answer == Err(NotVerified(e))
           case Ok(_) => answer.Ok?
  }

  lemma UploadAnswers(h: Host, rounds: Rounds, blobs: Blobs, tier: Tier, form: Form)
    ensures Answers(h, rounds, blobs, tier, form, CheckUpload(h, rounds, blobs, tier, form))
  {
    if !FormReads(h, form) {
      FormFails(h, rounds, blobs, tier, form);
    } else if KeyBefore(tier, RoundIn(h, form)) !in rounds {
      RoundFails(h, rounds, blobs, tier, form);
    } else if !Served(h, blobs, rounds[KeyBefore(tier, RoundIn(h, form))]) {
      FetchFails(h, rounds, blobs, tier, form);
    } else {
      PrepareGoes(h, rounds, blobs, tier, form);
    }
  }

  lemma FormFails(h: Host, rounds: Rounds, blobs: Blobs, tier: Tier, form: Form)
    requires !FormReads(h, form)
    ensures match Prepare(h, rounds, blobs, tier, form) case Err(e) => e.BadRequest? case Ok(_) => false
  {
  }

  lemma RoundFails(h: Host, rounds: Rounds, blobs: Blobs, tier: Tier, form: Form)
    requires FormReads(h, form) && KeyBefore(tier, RoundIn(h, form)) !in rounds
    ensures match Prepare(h, rounds, blobs, tier, form) case Err(e) => e.Conflict? case Ok(_) => false
  {
  }

  lemma FetchFails(h: Host, rounds: Rounds, blobs: Blobs, tier: Tier, form: Form)
    requires FormReads(h, form) && KeyBefore(tier, RoundIn(h, form)) in rounds
    requires !Served(h, blobs, rounds[KeyBefore(tier, RoundIn(h, form))])
    ensures match Prepare(h, rounds, blobs, tier, form) case Err(e) => e.BadGateway? case Ok(_) => false
  {
  }

  lemma PrepareGoes(h: Host, rounds: Rounds, blobs: Blobs, tier: Tier, form: Form)
    requires FormReads(h, form) && KeyBefore(tier, RoundIn(h, form)) in rounds
    requires Served(h, blobs, rounds[KeyBefore(tier, RoundIn(h, form))])
    ensures var row := rounds[KeyBefore(tier, RoundIn(h, form))];
      var p := Prepare(h, rounds, blobs, tier, form);
      p.Ok? && p.value.before == DirIn(h, blobs[row.srsHash], blobs[row.stateTxtHash], blobs[row.receiptHash])
      && p.value.after == DirIn(h, form["state_srs"], form["state_txt"], form["receipt"])
  {
  }

  /** What the upload handler records: an accepted upload its row and blobs, a refused one no
      row. */
  lemma CommitMeans(h: Host, s: Store, tier: Tier, form: Form, now: int, eventId: Option<string>)
    requires NonNegative(s.rounds)
    ensures match Commit(h, s, tier, form, now, eventId)
            case (s', Ok(c)) => CommitRecords(h, s, s', tier, form, c, now, eventId)
            case (s', Err(_)) => s'.rounds == s.rounds
  {
    var (s', res) := Commit(h, s, tier, form, now, eventId);
    if res.Ok? {
      var c, b, a, proof := AcceptedUpload(h, s.rounds, s.blobs, tier, form);
      RoundIsPositive(h, s.rounds, s.blobs, tier, c, b, a, proof);
      UploadIsRead(h, s, tier, form, c);
      RowIsSaid(h, c, now, eventId);
      RecordedCommit(h, s, tier, c, now, eventId);
    }
  }

  lemma RecordedCommit(h: Host, s: Store, tier: Tier, c: Prepared, now: int, eventId: Option<string>)
    requires "contribution_id" in c.state && (tier, c.round) !in s.rounds
    ensures var (s', res) := InsertRound(h, s, tier, Ok(c), now, eventId);
      res == Ok(c) && Published(h, s.blobs, s'.blobs, c.sent)
      && s'.rounds == s.rounds[(tier, c.round) := NewRow(h, c, now, eventId)]
  {
  }

  /** Round 0 of a tier: the tool's directory for the draw, under the coordinator's name. */
  ghost predicate SeedRecords(h: Host, s: Store, s': Store, tier: Tier, d: Draw, now: int, eventId: Option<string>,
                              files: Files) {
    var hash := h.L.sha(Encode(h.L, Initial(h.L.r, RequiredDegree(tier), d)));
    NonZeroDraw(d) && (forall n :: (tier, n) !in s.rounds)
    && files.stateSrs == Encode(h.L, Initial(h.L.r, RequiredDegree(tier), d))
    && Published(h, s.blobs, s'.blobs, files)
    && s'.rounds == s.rounds[(tier, 0) :=
         Round(ContributionId(tier, 0, hash), HexEncode(h.circuitId(tier)), HexEncode(hash),
               HexEncode(h.L.sha(files.stateTxt)), HexEncode(h.L.sha(files.receipt)),
               Some("coordinator-seed"), eventId, None, now)]
  }

  /** What seeding does: nothing to a tier with rounds, nothing on a draw with a zero, and
      else round 0. */
  lemma SeedMeans(h: Host, s: Store, tier: Tier, d: Draw, createdAt: string, now: int, eventId: Option<string>)
    requires SoundHost(h) && IsPrime(h.L.r) && NonNegative(s.rounds) && DrawInField(h.L.r, d) && '\n' !in createdAt
    ensures match Seed(h, s, tier, d, createdAt, now, eventId)
            case (s', Ok(None)) => s' == s && exists n :: (tier, n) in s.rounds
            case (s', Ok(Some(files))) => SeedRecords(h, s, s', tier, d, now, eventId, files)
            case (s', Err(_)) => s' == s && !NonZeroDraw(d)
  {
    if NoRounds(s.rounds, tier) {
      NoneAtAll(s.rounds, tier);
      SeedGoesThrough(h, tier, d, createdAt);
      var made := SeedFiles(h, tier, d, createdAt);
      if made.Ok? {
        var loaded := SeedOpens(h, tier, d, createdAt, made.value);
        SeedInserts(h, s, tier, d, createdAt, now, eventId, made.value, loaded);
      }
    } else {
      SomeRound(s.rounds, tier);
    }
  }

  lemma SeedNameValid()
    ensures ValidParticipant(SEED_NAME)
  {
  }

  lemma SeedGoesThrough(h: Host, tier: Tier, d: Draw, createdAt: string)
    requires IsPrime(h.L.r) && DrawInField(h.L.r, d) && '\n' !in createdAt
    ensures SeedFiles(h, tier, d, createdAt).Ok? <==> NonZeroDraw(d)
  {
    SeedNameValid();
    InitGenuine(h.L, tier, h.circuitId(tier), SEED_NAME, d, createdAt);
  }

  lemma SomeRound(rounds: Rounds, tier: Tier)
    requires !NoRounds(rounds, tier)
    ensures exists n :: (tier, n) in rounds
  {
    var key :| key in rounds && key.0 == tier && key.1 >= 0;
    assert key == (tier, key.1);
  }

  lemma NoneAtAll(rounds: Rounds, tier: Tier)
    requires NonNegative(rounds) && NoRounds(rounds, tier)
    ensures forall n :: (tier, n) !in rounds
  {
    forall n ensures (tier, n) !in rounds {
      assert (tier, n).0 == tier && (tier, n).1 == n;
    }
  }

  lemma SeedInserts(h: Host, s: Store, tier: Tier, d: Draw, createdAt: string, now: int, eventId: Option<string>,
                    files: Files, loaded: Loaded)
    requires NonZeroDraw(d) && SeedFiles(h, tier, d, createdAt) == Ok(files) && forall n :: (tier, n) !in s.rounds
    requires loaded.srs == Initial(h.L.r, RequiredDegree(tier), d) && SeedState(h, tier, loaded.srs, loaded.state)
    requires h.fromUtf8(files.stateTxt).Some? && ParseKv(h.fromUtf8(files.stateTxt).value) == loaded.state
    ensures var (s', res) := InsertSeed(h, s, tier, Ok(files), now, eventId);
      res == Ok(Some(files)) && SeedRecords(h, s, s', tier, d, now, eventId, files)
  {
  }
}
