/** The ceremony coordinator: its tables, and the requests and the reaper that change them.
    The clock, published event ids and the order of ties are inputs or left open. */
module CoordinatorService {
  import opened PrimeField
  import opened Results
  import Bytes
  import opened Text
  import opened Ceremony
  import opened Transcript
  import opened CeremonyTool
  import opened SlotQueue
  import opened RoundChain

  // ---------------------------------------------------------------------- queries

  /** First of the queue by joining time. */
  method FindHead(rows: seq<Signup>, tier: Tier) returns (head: Option<nat>)
    ensures head.None? ==> !AnyQueued(rows, tier)
    ensures head.Some? ==> head.value < |rows| && IsHead(rows, tier, head.value)
  {
    head := None;
    for i := 0 to |rows|
      invariant head.None? ==> forall j :: 0 <= j < i ==> !IsQueued(rows, tier, j)
      invariant head.Some? ==> head.value < i && IsQueued(rows, tier, head.value)
      invariant head.Some? ==>
        forall j :: 0 <= j < i && IsQueued(rows, tier, j) ==> rows[head.value].joinedAt <= rows[j].joinedAt
    {
      if IsQueued(rows, tier, i) && (head.None? || rows[i].joinedAt < rows[head.value].joinedAt) {
        head := Some(i);
      }
    }
  }

  /** The claim made last. */
  method FindCurrentClaim(rows: seq<Signup>, tier: Tier) returns (cur: Option<nat>)
    ensures cur.None? ==> !AnyClaimed(rows, tier)
    ensures cur.Some? ==> cur.value < |rows| && IsCurrentClaim(rows, tier, cur.value)
  {
    cur := None;
    for i := 0 to |rows|
      invariant cur.None? ==> forall j :: 0 <= j < i ==> !IsClaimed(rows, tier, j)
      invariant cur.Some? ==> cur.value < i && IsClaimed(rows, tier, cur.value)
      invariant cur.Some? ==>
        forall j :: 0 <= j < i && IsClaimed(rows, tier, j) ==> NullLe(rows[j].claimedAt, rows[cur.value].claimedAt)
    {
      if IsClaimed(rows, tier, i) && (cur.None? || NullLe(rows[cur.value].claimedAt, rows[i].claimedAt)) {
        cur := Some(i);
      }
    }
  }

  /** A participant's active row that joined last. */
  method FindLatestActive(rows: seq<Signup>, tier: Tier, pubkey: string) returns (row: Option<nat>)
    ensures row.None? ==> forall j :: 0 <= j < |rows| ==> !IsActive(rows[j], tier, pubkey)
    ensures row.Some? ==> row.value < |rows| && IsLatestActive(rows, tier, pubkey, row.value)
  {
    row := None;
    for i := 0 to |rows|
      invariant row.None? ==> forall j :: 0 <= j < i ==> !IsActive(rows[j], tier, pubkey)
      invariant row.Some? ==> row.value < i && IsActive(rows[row.value], tier, pubkey)
      invariant row.Some? ==>
        forall j :: 0 <= j < i && IsActive(rows[j], tier, pubkey) ==> rows[j].joinedAt <= rows[row.value].joinedAt
    {
      if IsActive(rows[i], tier, pubkey) && (row.None? || rows[row.value].joinedAt <= rows[i].joinedAt) {
        row := Some(i);
      }
    }
  }

  ghost predicate IsMaxRound(rounds: Rounds, tier: Tier, head: int) {
    (forall n :: (tier, n) in rounds ==> n <= head)
    && ((tier, head) in rounds || (head == -1 && forall n :: (tier, n) !in rounds))
  }

  /** The greatest round number of a tier, or -1. */
  method HeadRound(rounds: Rounds, tier: Tier) returns (head: int)
    ensures IsMaxRound(rounds, tier, head)
  {
    var max: Option<int> := None;
    var left := rounds.Keys;
    while left != {}
      invariant left <= rounds.Keys
      invariant max.Some? ==> (tier, max.value) in rounds
      invariant forall n :: (tier, n) in rounds && (tier, n) !in left ==> max.Some? && n <= max.value
      decreases |left|
    {
      var key :| key in left;
      assert key == (key.0, key.1);
      if key.0 == tier && (max.None? || max.value < key.1) {
        max := Some(key.1);
      }
      left := left - {key};
    }
    head := match max case Some(n) => n case None => -1;
  }

  lemma MaxIsHead(rounds: Rounds, tier: Tier, max: int)
    requires Contiguous(rounds, tier) && IsMaxRound(rounds, tier, max)
    ensures Exactly(rounds, tier, max)
  {
    var head :| Exactly(rounds, tier, head);
    assert (tier, head) in rounds <==> head >= 0;
  }

  /** The time of the tier's latest commit, or zero. */
  ghost predicate IsLatestRoundAt(rounds: Rounds, tier: Tier, at: int) {
    (forall key :: key in rounds && key.0 == tier ==> rounds[key].createdAt <= at)
    && ((exists key :: key in rounds && key.0 == tier && rounds[key].createdAt == at)
        || (at == 0 && forall key :: key in rounds ==> key.0 != tier))
  }

  method LatestRoundAt(rounds: Rounds, tier: Tier) returns (at: int)
    ensures IsLatestRoundAt(rounds, tier, at)
  {
    var max: Option<int> := None;
    var left := rounds.Keys;
    while left != {}
      invariant left <= rounds.Keys
      invariant max.Some? ==> exists key :: key in rounds && key.0 == tier && rounds[key].createdAt == max.value
      invariant forall key :: key in rounds && key !in left && key.0 == tier ==>
        max.Some? && rounds[key].createdAt <= max.value
      decreases |left|
    {
      var key :| key in left;
      if key.0 == tier && (max.None? || max.value < rounds[key].createdAt) {
        max := Some(rounds[key].createdAt);
      }
      left := left - {key};
    }
    at := match max case Some(t) => t case None => 0;
  }

  /** The participant named in the receipt, or the empty string. */
  function ParticipantOf(p: Prepared): string {
    match Lookup(p.receipt, "participant") case Some(name) => name case None => ""
  }

  /** What an accepted upload does to one row: a claimed row of its tier whose key is the
      receipt's participant (the empty string without one) becomes committed. */
  ghost predicate CommitsRow(row: Signup, row': Signup, tier: Tier, receipt: map<string, string>) {
    var committed := row.tier == tier && row.status == Claimed
      && (if "participant" in receipt then row.pubkey == receipt["participant"] else row.pubkey == "");
    row' == if committed then row.(status := Committed) else row
  }

  ghost predicate CommitsRows(rows: seq<Signup>, rows': seq<Signup>, tier: Tier, receipt: map<string, string>) {
    |rows'| == |rows| && forall i :: 0 <= i < |rows| ==> CommitsRow(rows[i], rows'[i], tier, receipt)
  }

  lemma CommitRows(rows: seq<Signup>, tier: Tier, p: Prepared)
    ensures CommitsRows(rows, AfterCommit(rows, tier, ParticipantOf(p)), tier, p.receipt)
  {
  }

  /** A participant's row that is queued or claimed. */
  ghost predicate OpenRow(row: Signup, tier: Tier, pubkey: string) {
    row.tier == tier && row.pubkey == pubkey && row.status in {Queued, Claimed}
  }

  /** A withdrawal: the participant's open row that joined last, if there is one. */
  ghost predicate Withdraws(rows: seq<Signup>, rows': seq<Signup>, tier: Tier, pubkey: string, res: Result<nat, HttpError>) {
    match res
    case Err(_) => rows' == rows && forall i :: 0 <= i < |rows| ==> !OpenRow(rows[i], tier, pubkey)
    case Ok(at) =>
      at < |rows| && OpenRow(rows[at], tier, pubkey)
      && (forall i :: 0 <= i < |rows| && OpenRow(rows[i], tier, pubkey) ==> rows[i].joinedAt <= rows[at].joinedAt)
      && rows' == rows[at := rows[at].(status := Withdrawn)]
  }

  lemma WithdrawsLatest(rows: seq<Signup>, tier: Tier, pubkey: string, row: Option<nat>)
    requires row.None? ==> forall j :: 0 <= j < |rows| ==> !IsActive(rows[j], tier, pubkey)
    requires row.Some? ==> row.value < |rows| && IsLatestActive(rows, tier, pubkey, row.value)
    ensures match row
            case None => Withdraws(rows, rows, tier, pubkey, Err(NotFound("no active signup to withdraw")))
            case Some(i) => Withdraws(rows, WithStatus(rows, i, Withdrawn), tier, pubkey, Ok(i))
  {
    assert forall j :: 0 <= j < |rows| ==> (OpenRow(rows[j], tier, pubkey) <==> IsActive(rows[j], tier, pubkey));
  }

  /** A granted claim: the caller's row, first in the queue, is claimed from now until the
      slot length has passed, and no claim of the tier was ahead of its deadline. */
  ghost predicate TakesSlot(lim: Limits, rows: seq<Signup>, rows': seq<Signup>, tier: Tier, pubkey: string, check: int, now: int) {
    (exists i: nat | i < |rows| ::
       rows[i].tier == tier && rows[i].status == Queued && rows[i].pubkey == pubkey
       && FirstQueued(rows, tier, i)
       && rows' == rows[i := rows[i].(status := Claimed, claimedAt := Some(now),
                                      deadline := Some(now + lim.slotDeadlineSecs))])
    && forall j :: 0 <= j < |rows| && rows[j].tier == tier && rows[j].status == Claimed ==>
         rows[j].deadline.Some? && rows[j].deadline.value <= check
  }

  /** A refused one: the queue is empty, its first row is another's, or a claim's deadline
      is ahead. */
  ghost predicate SlotRefused(rows: seq<Signup>, tier: Tier, pubkey: string, check: int) {
    (forall j :: 0 <= j < |rows| ==> rows[j].tier != tier || rows[j].status != Queued)
    || exists i: nat | i < |rows| :: KeepsFromSlot(rows, tier, pubkey, check, i)
  }

  ghost predicate KeepsFromSlot(rows: seq<Signup>, tier: Tier, pubkey: string, check: int, i: nat)
    requires i < |rows|
  {
    rows[i].tier == tier
    && match rows[i].status
       case Queued => rows[i].pubkey != pubkey && FirstQueued(rows, tier, i)
       case Claimed => rows[i].deadline.Some? && rows[i].deadline.value > check
       case _ => false
  }

  /** No row of the tier that is still queued joined earlier. */
  ghost predicate FirstQueued(rows: seq<Signup>, tier: Tier, i: nat)
    requires i < |rows|
  {
    forall j :: 0 <= j < |rows| && rows[j].tier == tier && rows[j].status == Queued ==> rows[i].joinedAt <= rows[j].joinedAt
  }

  lemma HeadIsFirst(rows: seq<Signup>, tier: Tier, i: nat)
    requires i < |rows|
    ensures IsHead(rows, tier, i) <==> rows[i].tier == tier && rows[i].status == Queued && FirstQueued(rows, tier, i)
  {
    forall j | 0 <= j < |rows| ensures IsQueued(rows, tier, j) <==> rows[j].tier == tier && rows[j].status == Queued {
    }
  }

  lemma RefusalMeans(lim: Limits, s: QueueState, tier: Tier, pubkey: string, check: int)
    requires Inv(lim, s) && ClaimRefused(s.rows, tier, pubkey, |s.rows|, check)
    ensures SlotRefused(s.rows, tier, pubkey, check)
  {
    assert s.rows[..|s.rows|] == s.rows;
    if !AnyQueued(s.rows, tier) {
      forall j | 0 <= j < |s.rows| ensures s.rows[j].tier != tier || s.rows[j].status != Queued {
        assert !IsQueued(s.rows, tier, j);
      }
    } else if head: nat :| head < |s.rows| && IsHead(s.rows, tier, head) && s.rows[head].pubkey != pubkey {
      HeadIsFirst(s.rows, tier, head);
      assert KeepsFromSlot(s.rows, tier, pubkey, check, head);
    } else {
      var cur: nat :| cur < |s.rows| && SlotHeld(s.rows, tier, check, cur);
      assert KeepsFromSlot(s.rows, tier, pubkey, check, cur);
    }
  }

  lemma GrantTakesSlot(lim: Limits, s: QueueState, tier: Tier, pubkey: string, check: int, now: int, head: nat, cur: nat)
    requires Inv(lim, s)
    requires head < |s.rows| && IsHead(s.rows, tier, head) && s.rows[head].pubkey == pubkey
    requires cur < |s.rows| && SlotFree(s.rows, tier, check, cur)
    ensures TakesSlot(lim, s.rows, MarkClaimed(s.rows, head, now, lim), tier, pubkey, check, now)
  {
    FreeMeansNoneLive(lim, s, tier, check, cur);
    HeadIsFirst(s.rows, tier, head);
    forall j | 0 <= j < |s.rows| && s.rows[j].tier == tier && s.rows[j].status == Claimed
      ensures s.rows[j].deadline.Some? && s.rows[j].deadline.value <= check
    {
      assert !IsLive(s.rows[j], tier, check);
    }
  }

  lemma RefusalKeeps(lim: Limits, s: QueueState, tier: Tier, pubkey: string, check: int, now: int)
    requires Inv(lim, s) && s.clock <= check <= now && ClaimRefused(s.rows, tier, pubkey, |s.rows|, check)
    ensures var s' := QueueState(s.rows, now, s.claims);
      Next(lim, s, Event.Claim(tier, pubkey, |s.rows|, check), s') && Inv(lim, s')
    ensures SlotRefused(s.rows, tier, pubkey, check)
  {
    RefusalMeans(lim, s, tier, pubkey, check);
    InvKept(lim, s, Event.Claim(tier, pubkey, |s.rows|, check), QueueState(s.rows, now, s.claims));
  }

  lemma GrantKeeps(lim: Limits, s: QueueState, tier: Tier, pubkey: string, check: int, now: int, head: nat, cur: nat)
    requires Inv(lim, s) && s.clock <= check <= now
    requires head < |s.rows| && IsHead(s.rows, tier, head) && s.rows[head].pubkey == pubkey
    requires cur < |s.rows| && SlotFree(s.rows, tier, check, cur)
    ensures var s' := QueueState(MarkClaimed(s.rows, head, now, lim), now, s.claims + [head]);
      Next(lim, s, Event.Claim(tier, pubkey, |s.rows|, check), s') && Inv(lim, s')
  {
    var s' := QueueState(MarkClaimed(s.rows, head, now, lim), now, s.claims + [head]);
    assert s.rows[..|s.rows|] == s.rows;
    assert ClaimGranted(lim, s.rows, s'.rows, tier, pubkey, |s.rows|, check, now, head, cur);
    InvKept(lim, s, Event.Claim(tier, pubkey, |s.rows|, check), s');
  }

  lemma ReapKeeps(lim: Limits, s: QueueState, rows: seq<Signup>, tier: Tier, latestRoundAt: int, now: int)
    requires Inv(lim, s) && s.clock <= now && ReapStep(lim, s.rows, rows, tier, latestRoundAt, now)
    ensures var s' := QueueState(rows, now, s.claims);
      Next(lim, s, Event.Reap(tier, latestRoundAt), s') && Inv(lim, s')
  {
    InvKept(lim, s, Event.Reap(tier, latestRoundAt), QueueState(rows, now, s.claims));
  }

  // --------------------------------------------------------------------- the service

  class Coordinator {
    const h: Host
    const lim: Limits
    var signups: seq<Signup>
    var rounds: Rounds
    var blobs: Blobs
    /** What each round was accepted with, the latest time seen, and the rows claimed in order. */
    ghost var history: map<(Tier, int), Entry>
    ghost var clock: int
    ghost var claims: seq<nat>

    ghost function Table(): QueueState
      reads this
    {
      QueueState(signups, clock, claims)
    }

    ghost function Chain(): Ledger
      reads this
    {
      Ledger(Store(rounds, blobs), history)
    }

    ghost predicate Valid()
      reads this
    {
      SoundHost(h) && Inv(lim, Table()) && ChainInv(h, Chain())
    }

    constructor (h: Host, lim: Limits, start: int)
      requires SoundHost(h)
      ensures Valid() && this.h == h && this.lim == lim
      ensures Table() == QueueState([], start, []) && Chain() == After(h, [])
    {
      this.h, this.lim := h, lim;
      signups, rounds, blobs, history, clock, claims := [], map[], map[], map[], start, [];
      new;
      ChainAlways(h, []);
    }

    method SignUp(tier: Tier, pubkey: string, now: int) returns (res: Result<nat, HttpError>)
      requires Valid() && clock <= now
      modifies this
      ensures Valid() && Chain() == old(Chain()) && clock == now
      ensures Next(lim, old(Table()), Event.SignUp(tier, pubkey), Table())
      ensures res.Ok? <==> forall i :: 0 <= i < |old(signups)| ==>
        !(old(signups)[i].tier == tier && old(signups)[i].pubkey == pubkey && old(signups)[i].joinedAt == now)
      ensures res.Ok? ==> res.value == |old(signups)|
      ensures res.Ok? ==> signups == old(signups) + [Signup(res.value, pubkey, tier, now, Queued, None, None)]
      ensures res.Err? ==> signups == old(signups)
    {
      ghost var was := Table();
      clock := now;
      if Duplicate(signups, tier, pubkey, now) {
        res := Err(Internal("UNIQUE"));
      } else {
        res := Ok(|signups|);
        signups := signups + [Signup(|signups|, pubkey, tier, now, Queued, None, None)];
      }
      InvKept(lim, was, Event.SignUp(tier, pubkey), Table());
    }

    /** Turns the head of the queue into a claimed row if it is the caller's and the slot is
        free.  `check` is the clock at the check of the slot, `now` at the update. */
    method TakeSlot(tier: Tier, pubkey: string, check: int, now: int) returns (res: Outcome<HttpError>)
      requires Inv(lim, Table()) && clock <= check <= now
      modifies this`signups, this`claims, this`clock
      ensures Inv(lim, Table()) && clock == now
      ensures Next(lim, old(Table()), Event.Claim(tier, pubkey, |old(signups)|, check), Table())
      ensures res.Pass? ==> |claims| == |old(claims)| + 1 && TakesSlot(lim, old(signups), signups, tier, pubkey, check, now)
      ensures res.Fail? ==> claims == old(claims) && signups == old(signups) && res.error.Conflict?
      ensures res.Fail? ==> SlotRefused(signups, tier, pubkey, check)
    {
      ghost var was := Table();
      assert signups[..|signups|] == signups;
      clock := now;
      var head := FindHead(signups, tier);
      if head.None? {
        RefusalKeeps(lim, was, tier, pubkey, check, now);
        return Fail(HttpError.Conflict("queue empty"));
      }
      if signups[head.value].pubkey != pubkey {
        RefusalKeeps(lim, was, tier, pubkey, check, now);
        return Fail(HttpError.Conflict("not at head of queue"));
      }
      var cur := FindCurrentClaim(signups, tier);
      if cur.Some? && DeadlineOrZero(signups[cur.value]) > check {
        assert SlotHeld(signups, tier, check, cur.value);
        RefusalKeeps(lim, was, tier, pubkey, check, now);
        return Fail(HttpError.Conflict("slot held by another participant"));
      }
      ghost var latest := if cur.Some? then cur.value else head.value;
      GrantKeeps(lim, was, tier, pubkey, check, now, head.value, latest);
      GrantTakesSlot(lim, was, tier, pubkey, check, now, head.value, latest);
      signups := MarkClaimed(signups, head.value, now, lim);
      claims := claims + [head.value];
      res := Pass;
    }

    method HeadOf(tier: Tier) returns (head: int)
      requires Contiguous(rounds, tier)
      ensures Exactly(rounds, tier, head)
    {
      head := HeadRound(rounds, tier);
      MaxIsHead(rounds, tier, head);
    }

    /** The claim handler.  A tier without rounds answers with an error, but the slot is taken. */
    method Claim(tier: Tier, pubkey: string, check: int, now: int) returns (res: Result<(int, Round), HttpError>)
      requires Valid() && clock <= check <= now
      modifies this
      ensures Valid() && Chain() == old(Chain()) && clock == now
      ensures Next(lim, old(Table()), Event.Claim(tier, pubkey, |old(signups)|, check), Table())
      ensures res.Ok? || res.error.Unavailable? ==> TakesSlot(lim, old(signups), signups, tier, pubkey, check, now)
      ensures res.Ok? ==> |claims| == |old(claims)| + 1 && Exactly(rounds, tier, res.value.0 - 1)
      ensures res.Ok? ==> (tier, res.value.0 - 1) in rounds && res.value.1 == rounds[(tier, res.value.0 - 1)]
      ensures res.Err? && res.error.Unavailable? <==> |claims| == |old(claims)| + 1 && Exactly(rounds, tier, -1)
      ensures res.Err? && !res.error.Unavailable? ==> claims == old(claims) && signups == old(signups)
      ensures res.Err? && !res.error.Unavailable? ==> SlotRefused(signups, tier, pubkey, check)
    {
      assert Contiguous(rounds, tier);
      :- TakeSlot(tier, pubkey, check, now);
      var headRound := HeadOf(tier);
      if headRound < 0 {
        return Err(Unavailable("tier not initialised yet"));
      }
      res := Ok((headRound + 1, rounds[(tier, headRound)]));
    }

    method Withdraw(tier: Tier, pubkey: string, now: int) returns (res: Result<nat, HttpError>)
      requires Valid() && clock <= now
      modifies this
      ensures Valid() && Chain() == old(Chain()) && clock == now
      ensures Next(lim, old(Table()), Event.Withdraw(tier, pubkey), Table())
      ensures Withdraws(old(signups), signups, tier, pubkey, res)
    {
      ghost var was := Table();
      clock := now;
      var row := FindLatestActive(signups, tier, pubkey);
      WithdrawsLatest(signups, tier, pubkey, row);
      match row {
        case None => res := Err(NotFound("no active signup to withdraw"));
        case Some(i) =>
          signups := WithStatus(signups, i, Withdrawn);
          res := Ok(i);
      }
      InvKept(lim, was, Event.Withdraw(tier, pubkey), Table());
    }

    method Publish(files: Files)
      modifies this`blobs
      ensures blobs == PutAll(h, old(blobs), files)
    {
      blobs := Put(h, blobs, files.stateSrs);
      blobs := Put(h, blobs, files.stateTxt);
      blobs := Put(h, blobs, files.receipt);
    }

    /** After the checks: the three blobs first, then the row, then the participant's claimed
        rows, then the event id on the row. */
    method RecordUpload(tier: Tier, p: Prepared, now: int, eventId: Option<string>) returns (res: Result<Prepared, HttpError>)
      modifies this`blobs, this`rounds, this`history, this`signups
      ensures Chain() == Recorded(h, old(Chain()), tier, Ok(p), now, eventId)
      ensures (Store(rounds, blobs), res) == InsertRound(h, Store(old(rounds), old(blobs)), tier, Ok(p), now, eventId)
      ensures signups == if res.Ok? then AfterCommit(old(signups), tier, ParticipantOf(p)) else old(signups)
    {
      Publish(p.sent);
      if "contribution_id" !in p.state {
        return Err(BadRequest("contribution_id"));
      }
      if (tier, p.round) in rounds {
        return Err(Internal("insert"));
      }
      rounds := rounds[(tier, p.round) := NewRow(h, p, now, None)];
      history := history[(tier, p.round) := Entry(Some(p.fetched), p.sent)];
      signups := AfterCommit(signups, tier, ParticipantOf(p));
      if eventId.Some? {
        rounds := rounds[(tier, p.round) := rounds[(tier, p.round)].(eventId := eventId)];
      }
      res := Ok(p);
    }

    /** The upload handler. */
    method Contribute(tier: Tier, form: Form, now: int, eventId: Option<string>) returns (res: Result<Prepared, HttpError>)
      requires Valid() && clock <= now
      modifies this
      ensures Valid() && clock == now
      ensures Chain() == Applied(h, old(Chain()), Contribution(tier, form, now, eventId))
      ensures (Store(rounds, blobs), res) == RoundChain.Commit(h, Store(old(rounds), old(blobs)), tier, form, now, eventId)
      ensures res.Ok? ==> Next(lim, old(Table()), Event.Commit(tier, ParticipantOf(res.value)), Table())
      ensures res.Err? ==> Next(lim, old(Table()), Event.Other, Table())
      ensures res.Ok? ==> CommitsRows(old(signups), signups, tier, res.value.receipt)
      ensures res.Err? ==> signups == old(signups)
      ensures res.Ok? ==>
        CommitRecords(h, Store(old(rounds), old(blobs)), Store(rounds, blobs), tier, form, res.value, now, eventId)
      ensures res.Err? ==> rounds == old(rounds)
    {
      ContributionKeeps(h, Chain(), tier, form, now, eventId);
      KeysNonNegative(Chain());
      CommitMeans(h, Store(rounds, blobs), tier, form, now, eventId);
      var checked := CheckUpload(h, rounds, blobs, tier, form);
      res := RecordIfChecked(tier, checked, now, eventId);
    }

    method RecordIfChecked(tier: Tier, checked: Result<Prepared, HttpError>, now: int, eventId: Option<string>)
      returns (res: Result<Prepared, HttpError>)
      requires Inv(lim, Table()) && clock <= now
      modifies this
      ensures Inv(lim, Table()) && clock == now
      ensures Chain() == Recorded(h, old(Chain()), tier, checked, now, eventId)
      ensures (Store(rounds, blobs), res) == InsertRound(h, Store(old(rounds), old(blobs)), tier, checked, now, eventId)
      ensures res.Ok? ==> Next(lim, old(Table()), Event.Commit(tier, ParticipantOf(res.value)), Table())
      ensures res.Err? ==> Next(lim, old(Table()), Event.Other, Table())
      ensures res.Ok? ==> CommitsRows(old(signups), signups, tier, res.value.receipt)
      ensures res.Err? ==> signups == old(signups)
    {
      ghost var was := Table();
      clock := now;
      match checked {
        case Err(e) => res := Err(e);
        case Ok(p) => res := RecordUpload(tier, p, now, eventId);
      }
      if res.Ok? {
        CommitRows(was.rows, tier, res.value);
      }
      InvKept(lim, was, if res.Ok? then Event.Commit(tier, ParticipantOf(res.value)) else Event.Other, Table());
    }

    /** Expires the tier's claims whose deadline has passed; the latest such deadline, or zero. */
    method ExpireStale(tier: Tier, now: int) returns (lastClaimEnd: int)
      modifies this`signups
      ensures signups == WithoutStale(old(signups), tier, now)
      ensures lastClaimEnd == LastClaimEnd(old(signups), tier, now)
    {
      var rows := signups;
      lastClaimEnd := 0;
      for i := 0 to |rows|
        invariant |signups| == |rows|
        invariant forall j :: 0 <= j < i ==> signups[j] == WithoutStale(rows, tier, now)[j]
        invariant forall j :: i <= j < |rows| ==> signups[j] == rows[j]
        invariant lastClaimEnd == LastClaimEnd(rows[..i], tier, now)
      {
        assert rows[..i + 1][..i] == rows[..i];
        if IsStale(rows[i], tier, now) {
          signups := WithStatus(signups, i, Expired);
          lastClaimEnd := Max(lastClaimEnd, rows[i].deadline.value);
        }
      }
      assert rows[..|rows|] == rows;
    }

    /** One pass of the reaper over a tier. */
    method ReapTier(tier: Tier, now: int) returns (latestRoundAt: int)
      requires Valid() && clock <= now
      modifies this
      ensures Valid() && Chain() == old(Chain()) && clock == now
      ensures IsLatestRoundAt(rounds, tier, latestRoundAt)
      ensures Next(lim, old(Table()), Event.Reap(tier, latestRoundAt), Table())
      ensures ReapMeans(lim, old(signups), signups, tier, latestRoundAt, now)
    {
      latestRoundAt := LatestRoundAt(rounds, tier);
      ExpireRows(tier, latestRoundAt, now);
    }

    method ExpireRows(tier: Tier, latestRoundAt: int, now: int)
      requires Inv(lim, Table()) && clock <= now
      modifies this`signups, this`clock
      ensures Inv(lim, Table()) && clock == now
      ensures Next(lim, old(Table()), Event.Reap(tier, latestRoundAt), Table())
      ensures ReapMeans(lim, old(signups), signups, tier, latestRoundAt, now)
    {
      ghost var was := Table();
      ExpireIdle(tier, latestRoundAt, now);
      clock := now;
      ReapKeeps(lim, was, signups, tier, latestRoundAt, now);
      ReaperExpires(lim, was.rows, signups, tier, latestRoundAt, now);
    }

    method ExpireIdle(tier: Tier, latestRoundAt: int, now: int)
      modifies this`signups
      ensures ReapStep(lim, old(signups), signups, tier, latestRoundAt, now)
    {
      var lastClaimEnd := ExpireStale(tier, now);
      if !AnyLive(signups, tier, now) {
        var head := FindHead(signups, tier);
        if head.Some? {
          var becameHeadAt := Max(Max(signups[head.value].joinedAt, latestRoundAt), lastClaimEnd);
          if becameHeadAt + lim.queueIdleSecs < now {
            signups := WithStatus(signups, head.value, Expired);
          }
          assert SweptHead(lim, old(signups), signups, tier, latestRoundAt, now, head.value);
        }
      }
    }

    /** Round 0, once per tier. */
    method SeedTier(tier: Tier, d: Draw, createdAt: string, now: int, eventId: Option<string>)
      returns (res: Result<Option<Files>, HttpError>)
      requires Valid() && clock <= now && DrawInField(h.L.r, d) && '\n' !in createdAt
      modifies this
      ensures Valid() && clock == now
      ensures Chain() == Applied(h, old(Chain()), Seeding(tier, d, createdAt, now, eventId))
      ensures (Store(rounds, blobs), res) == Seed(h, Store(old(rounds), old(blobs)), tier, d, createdAt, now, eventId)
      ensures Next(lim, old(Table()), Event.Other, Table())
    {
      Tick(now);
      ChainKept(h, Chain(), Seeding(tier, d, createdAt, now, eventId));
      if !NoRounds(rounds, tier) {
        return Ok(None);
      }
      var made := SeedFiles(h, tier, d, createdAt);
      res := RecordMade(tier, made, now, eventId);
    }

    method Tick(now: int)
      requires Inv(lim, Table()) && clock <= now
      modifies this`clock
      ensures Inv(lim, Table()) && clock == now
      ensures Next(lim, old(Table()), Event.Other, Table())
    {
      ghost var was := Table();
      clock := now;
      InvKept(lim, was, Event.Other, Table());
    }

    method RecordMade(tier: Tier, made: Result<Files, ToolError>, now: int, eventId: Option<string>)
      returns (res: Result<Option<Files>, HttpError>)
      modifies this`blobs, this`rounds, this`history
      ensures Chain() == RecordedSeed(h, old(Chain()), tier, made, now, eventId)
      ensures (Store(rounds, blobs), res) == InsertSeed(h, Store(old(rounds), old(blobs)), tier, made, now, eventId)
    {
      if made.Err? {
        return Err(NotVerified(made.error));
      }
      var files := made.value;
      var text :- Utf8(h, files.stateTxt, Internal("utf-8"));
      var state := ParseKv(text);
      if "srs_hash" !in state || "contribution_id" !in state || "circuit_id" !in state {
        return Err(Internal("state.txt"));
      }
      Publish(files);
      rounds := rounds[(tier, 0) := SeedRow(h, files, state, now, eventId)];
      history := history[(tier, 0) := Entry(None, files)];
      res := Ok(Some(files));
    }

    /** Anyone may store a blob. */
    method PutBlob(data: seq<Bytes.byte>)
      requires Valid()
      modifies this
      ensures Valid() && Table() == old(Table())
      ensures Chain() == Applied(h, old(Chain()), Upload(data))
    {
      PutKeeps(h, blobs, data);
      blobs := Put(h, blobs, data);
    }
  }
}
