/** The signup table of the ceremony coordinator and the steps that change it.  Each step
    holds its tier's lock, except a signup, which is a single insert. */
module SlotQueue {
  import opened Results
  import opened Transcript

  datatype Status = Queued | Claimed | Committed | Expired | Skipped | Withdrawn

  datatype Signup = Signup(
    id: nat, pubkey: string, tier: Tier, joinedAt: int, status: Status,
    claimedAt: Option<int>, deadline: Option<int>)

  datatype Limits = Limits(slotDeadlineSecs: int, queueIdleSecs: int)

  // ---------------------------------------------------------------------- queries

  predicate IsQueued(rows: seq<Signup>, tier: Tier, i: nat)
    requires i < |rows|
  {
    rows[i].tier == tier && rows[i].status == Queued
  }

  predicate IsClaimed(rows: seq<Signup>, tier: Tier, i: nat)
    requires i < |rows|
  {
    rows[i].tier == tier && rows[i].status == Claimed
  }

  predicate AnyQueued(rows: seq<Signup>, tier: Tier) {
    exists i :: 0 <= i < |rows| && IsQueued(rows, tier, i)
  }

  predicate AnyClaimed(rows: seq<Signup>, tier: Tier) {
    exists i :: 0 <= i < |rows| && IsClaimed(rows, tier, i)
  }

  /** A first row of the queue: queued, none queued joined earlier.  Ties are open. */
  predicate IsHead(rows: seq<Signup>, tier: Tier, i: nat)
    requires i < |rows|
  {
    IsQueued(rows, tier, i)
    && forall j :: 0 <= j < |rows| && IsQueued(rows, tier, j) ==> rows[i].joinedAt <= rows[j].joinedAt
  }

  /** SQL order on nullable times: null is least. */
  predicate NullLe(a: Option<int>, b: Option<int>) {
    a.None? || (b.Some? && a.value <= b.value)
  }

  /** A row that `current_claim` may return: claimed, none claimed later. */
  predicate IsCurrentClaim(rows: seq<Signup>, tier: Tier, i: nat)
    requires i < |rows|
  {
    IsClaimed(rows, tier, i)
    && forall j :: 0 <= j < |rows| && IsClaimed(rows, tier, j) ==> NullLe(rows[j].claimedAt, rows[i].claimedAt)
  }

  function DeadlineOrZero(row: Signup): int {
    match row.deadline case Some(d) => d case None => 0
  }

  /** A participant's own latest active row. */
  predicate IsLatestActive(rows: seq<Signup>, tier: Tier, pubkey: string, i: nat)
    requires i < |rows|
  {
    IsActive(rows[i], tier, pubkey)
    && forall j :: 0 <= j < |rows| && IsActive(rows[j], tier, pubkey) ==> rows[j].joinedAt <= rows[i].joinedAt
  }

  predicate IsActive(row: Signup, tier: Tier, pubkey: string) {
    row.tier == tier && row.pubkey == pubkey && (row.status == Queued || row.status == Claimed)
  }

  predicate IsStale(row: Signup, tier: Tier, now: int) {
    row.tier == tier && row.status == Claimed && row.deadline.Some? && row.deadline.value < now
  }

  /** A claimed row whose deadline is still ahead. */
  predicate IsLive(row: Signup, tier: Tier, now: int) {
    row.tier == tier && row.status == Claimed && row.deadline.Some? && row.deadline.value > now
  }

  predicate AnyLive(rows: seq<Signup>, tier: Tier, now: int) {
    exists i :: 0 <= i < |rows| && IsLive(rows[i], tier, now)
  }

  // ------------------------------------------------------------------------ steps

  function WithStatus(rows: seq<Signup>, i: nat, status: Status): seq<Signup>
    requires i < |rows|
  {
    rows[i := rows[i].(status := status)]
  }

  predicate Duplicate(rows: seq<Signup>, tier: Tier, pubkey: string, now: int) {
    exists i :: 0 <= i < |rows| && rows[i].tier == tier && rows[i].pubkey == pubkey && rows[i].joinedAt == now
  }

  /** The insert, refused by the table's uniqueness rule within one second. */
  function AfterSignup(rows: seq<Signup>, tier: Tier, pubkey: string, now: int): seq<Signup> {
    if Duplicate(rows, tier, pubkey, now) then rows
    else rows + [Signup(|rows|, pubkey, tier, now, Queued, None, None)]
  }

  /** A claim is refused while the latest claim's deadline is ahead of the check. */
  ghost predicate SlotHeld(rows: seq<Signup>, tier: Tier, check: int, cur: nat)
    requires cur < |rows|
  {
    AnyClaimed(rows, tier) && IsCurrentClaim(rows, tier, cur) && DeadlineOrZero(rows[cur]) > check
  }

  ghost predicate SlotFree(rows: seq<Signup>, tier: Tier, check: int, cur: nat)
    requires cur < |rows|
  {
    AnyClaimed(rows, tier) ==> IsCurrentClaim(rows, tier, cur) && DeadlineOrZero(rows[cur]) <= check
  }

  function MarkClaimed(rows: seq<Signup>, head: nat, now: int, lim: Limits): seq<Signup>
    requires head < |rows|
  {
    rows[head := rows[head].(status := Claimed, claimedAt := Some(now), deadline := Some(now + lim.slotDeadlineSecs))]
  }

  /** A claim that goes through.  The queue was read when the table had `seen` rows; rows
      inserted since are not in it. */
  ghost predicate ClaimGranted(lim: Limits, rows: seq<Signup>, rows': seq<Signup>, tier: Tier, pubkey: string,
                               seen: nat, check: int, now: int, head: nat, cur: nat)
  {
    head < seen <= |rows| && cur < |rows|
    && IsHead(rows[..seen], tier, head) && rows[head].pubkey == pubkey
    && SlotFree(rows, tier, check, cur)
    && rows' == MarkClaimed(rows, head, now, lim)
  }

  /** Why a claim is refused: empty queue, another head, or a held slot. */
  ghost predicate ClaimRefused(rows: seq<Signup>, tier: Tier, pubkey: string, seen: nat, check: int) {
    seen <= |rows|
    && (!AnyQueued(rows[..seen], tier)
        || (exists head: nat :: head < seen && IsHead(rows[..seen], tier, head) && rows[head].pubkey != pubkey)
        || (exists cur: nat :: cur < |rows| && SlotHeld(rows, tier, check, cur)))
  }

  ghost predicate WithdrawStep(rows: seq<Signup>, rows': seq<Signup>, tier: Tier, pubkey: string) {
    (rows' == rows && forall i :: 0 <= i < |rows| ==> !IsActive(rows[i], tier, pubkey))
    || exists i: nat :: i < |rows| && IsLatestActive(rows, tier, pubkey, i) && rows' == WithStatus(rows, i, Withdrawn)
  }

  /** Every claimed row of the participant, whatever its deadline, becomes committed. */
  function AfterCommit(rows: seq<Signup>, tier: Tier, participant: string): (rows': seq<Signup>)
    ensures |rows'| == |rows|
  {
    seq(|rows|, i requires 0 <= i < |rows| =>
      if rows[i].tier == tier && rows[i].status == Claimed && rows[i].pubkey == participant
      then rows[i].(status := Committed) else rows[i])
  }

  function WithoutStale(rows: seq<Signup>, tier: Tier, now: int): (rows': seq<Signup>)
    ensures |rows'| == |rows|
  {
    seq(|rows|, i requires 0 <= i < |rows| =>
      if IsStale(rows[i], tier, now) then rows[i].(status := Expired) else rows[i])
  }

  function Max(a: int, b: int): int {
    if a >= b then a else b
  }

  /** The latest deadline among the stale rows of this pass, or zero. */
  function LastClaimEnd(rows: seq<Signup>, tier: Tier, now: int): int {
    if rows == [] then 0
    else
      var n := |rows| - 1;
      var before := LastClaimEnd(rows[..n], tier, now);
      if IsStale(rows[n], tier, now) then Max(before, rows[n].deadline.value) else before
  }

  /** How long the head may idle: from its joining, the tier's latest round or the latest
      claim reaped in this pass, whichever is last. */
  predicate HeadIdle(lim: Limits, joinedAt: int, latestRoundAt: int, lastClaimEnd: int, now: int) {
    Max(Max(joinedAt, latestRoundAt), lastClaimEnd) + lim.queueIdleSecs < now
  }

  ghost predicate ReapStep(lim: Limits, rows: seq<Signup>, rows': seq<Signup>, tier: Tier, latestRoundAt: int, now: int) {
    var swept := WithoutStale(rows, tier, now);
    if AnyLive(swept, tier, now) || !AnyQueued(swept, tier) then rows' == swept
    else exists head: nat | head < |rows| :: SweptHead(lim, rows, rows', tier, latestRoundAt, now, head)
  }

  /** The idle check of one pass on a head of the swept queue. */
  ghost predicate SweptHead(lim: Limits, rows: seq<Signup>, rows': seq<Signup>, tier: Tier, latestRoundAt: int,
                            now: int, head: nat)
    requires head < |rows|
  {
    var swept := WithoutStale(rows, tier, now);
    IsHead(swept, tier, head)
    && rows' == (if HeadIdle(lim, swept[head].joinedAt, latestRoundAt, LastClaimEnd(rows, tier, now), now)
                 then WithStatus(swept, head, Expired) else swept)
  }

  datatype Event =
    | SignUp(tier: Tier, pubkey: string)
    | Claim(tier: Tier, pubkey: string, seen: nat, check: int)
    | Withdraw(tier: Tier, pubkey: string)
    | Commit(tier: Tier, participant: string)
    | Reap(tier: Tier, latestRoundAt: int)
    | Other

  /** The table, the clock, and the rows claimed so far in order. */
  datatype QueueState = QueueState(rows: seq<Signup>, clock: int, claims: seq<nat>)

  ghost predicate Next(lim: Limits, s: QueueState, e: Event, s': QueueState) {
    s.clock <= s'.clock
    && match e
       case SignUp(tier, pubkey) =>
         s'.rows == AfterSignup(s.rows, tier, pubkey, s'.clock) && s'.claims == s.claims
       case Claim(tier, pubkey, seen, check) =>
         s.clock <= check <= s'.clock
         && ((s'.rows == s.rows && s'.claims == s.claims && ClaimRefused(s.rows, tier, pubkey, seen, check))
             || exists head: nat, cur: nat ::
                  ClaimGranted(lim, s.rows, s'.rows, tier, pubkey, seen, check, s'.clock, head, cur)
                  && s'.claims == s.claims + [head])
       case Withdraw(tier, pubkey) =>
         WithdrawStep(s.rows, s'.rows, tier, pubkey) && s'.claims == s.claims
       case Commit(tier, participant) =>
         s'.rows == AfterCommit(s.rows, tier, participant) && s'.claims == s.claims
       case Reap(tier, latestRoundAt) =>
         ReapStep(lim, s.rows, s'.rows, tier, latestRoundAt, s'.clock) && s'.claims == s.claims
       case Other =>
         s'.rows == s.rows && s'.claims == s.claims
  }

  // ------------------------------------------------------------------- lifecycle

  /** What one step may do to one row: who joined when never changes, a status moves only
      forward, and the times of a claim are set when it is granted and then stay. */
  predicate RowStep(lim: Limits, a: Signup, b: Signup, now: int) {
    a.id == b.id && a.pubkey == b.pubkey && a.tier == b.tier && a.joinedAt == b.joinedAt
    && (a.status == b.status ==> a == b)
    && (if a.status == Queued && b.status == Claimed
        then b.claimedAt == Some(now) && b.deadline == Some(now + lim.slotDeadlineSecs)
        else b.claimedAt == a.claimedAt && b.deadline == a.deadline)
    && match a.status
       case Queued => b.status in {Queued, Claimed, Expired, Withdrawn}
       case Claimed => b.status in {Claimed, Committed, Expired, Withdrawn}
       case _ => a == b
  }

  /** Who moves a row: a claim or a withdrawal by its own participant, a commit in its
      participant's name, or the reaper of its tier. */
  predicate Moves(e: Event, a: Signup, status: Status) {
    match status
    case Claimed => e.Claim? && e.tier == a.tier && e.pubkey == a.pubkey
    case Committed => e == Commit(a.tier, a.pubkey)
    case Withdrawn => e == Withdraw(a.tier, a.pubkey)
    case Expired => e.Reap? && e.tier == a.tier
    case _ => false
  }

  lemma StepsFollowLifecycle(lim: Limits, s: QueueState, e: Event, s': QueueState)
    requires Next(lim, s, e, s')
    ensures |s.rows| <= |s'.rows|
    ensures forall i :: 0 <= i < |s.rows| ==> RowStep(lim, s.rows[i], s'.rows[i], s'.clock)
    ensures forall i :: 0 <= i < |s.rows| && s'.rows[i] != s.rows[i] ==> Moves(e, s.rows[i], s'.rows[i].status)
    ensures forall i :: 0 <= i < |s.rows| && s.rows[i].status == Claimed && e == Commit(s.rows[i].tier, s.rows[i].pubkey) ==>
      s'.rows[i].status == Committed
    ensures forall i :: |s.rows| <= i < |s'.rows| ==>
      e.SignUp? && s'.rows[i] == Signup(i, e.pubkey, e.tier, s'.clock, Queued, None, None)
  {
    if e.Claim? && s'.rows != s.rows {
      var head: nat, cur: nat :|
        ClaimGranted(lim, s.rows, s'.rows, e.tier, e.pubkey, e.seen, e.check, s'.clock, head, cur);
      assert s.rows[..e.seen][head] == s.rows[head];
      assert IsQueued(s.rows[..e.seen], e.tier, head);
    }
  }

  ghost predicate Run(lim: Limits, states: seq<QueueState>, events: seq<Event>) {
    |states| == |events| + 1
    && states[0].rows == [] && states[0].claims == []
    && forall i :: 0 <= i < |events| ==> Next(lim, states[i], events[i], states[i + 1])
  }

  /** Committed, expired and withdrawn rows never change again, over any run. */
  lemma {:induction false} FinalForever(lim: Limits, states: seq<QueueState>, events: seq<Event>, m: nat, n: nat, i: nat)
    requires Run(lim, states, events) && m <= n < |states|
    requires i < |states[m].rows| && states[m].rows[i].status !in {Queued, Claimed}
    ensures i < |states[n].rows| && states[n].rows[i] == states[m].rows[i]
    decreases n
  {
    if m < n {
      FinalForever(lim, states, events, m, n - 1, i);
      StepsFollowLifecycle(lim, states[n - 1], events[n - 1], states[n]);
    }
  }

  /** Step `k` commits row `i`: it is claimed then, and the step is a commit of its tier in
      its participant's name. */
  ghost predicate CommittedAt(states: seq<QueueState>, events: seq<Event>, k: nat, i: nat)
    requires |states| == |events| + 1 && k < |events|
  {
    i < |states[k].rows| && states[k].rows[i].status == Claimed
    && events[k] == Commit(states[k].rows[i].tier, states[k].rows[i].pubkey)
  }

  /** Over any run a row is committed exactly if such a step met it. */
  lemma {:induction false} CommittedExactly(lim: Limits, states: seq<QueueState>, events: seq<Event>, n: nat, i: nat)
    requires Run(lim, states, events) && n < |states| && i < |states[n].rows|
    ensures states[n].rows[i].status == Committed <==> exists k: nat | k < n :: CommittedAt(states, events, k, i)
    decreases n
  {
    if n > 0 {
      var s, e, s' := states[n - 1], events[n - 1], states[n];
      StepsFollowLifecycle(lim, s, e, s');
      if i < |s.rows| {
        CommittedExactly(lim, states, events, n - 1, i);
        assert RowStep(lim, s.rows[i], s'.rows[i], s'.clock);
        if s.rows[i].status != Committed && s'.rows[i].status == Committed {
          assert CommittedAt(states, events, n - 1, i);
        }
      } else if k: nat :| k < n && CommittedAt(states, events, k, i) {
        RowsStay(lim, states, events, k, n - 1, i);
      }
    }
  }

  /** Rows stay in the table, with who joined when; none returns to the queue. */
  lemma {:induction false} RowsStay(lim: Limits, states: seq<QueueState>, events: seq<Event>, m: nat, n: nat, i: nat)
    requires Run(lim, states, events) && m <= n < |states| && i < |states[m].rows|
    ensures i < |states[n].rows| && SameJoining(states[m].rows[i], states[n].rows[i])
    decreases n
  {
    if m < n {
      RowsStay(lim, states, events, m, n - 1, i);
      StepsFollowLifecycle(lim, states[n - 1], events[n - 1], states[n]);
      assert RowStep(lim, states[n - 1].rows[i], states[n].rows[i], states[n].clock);
    }
  }

  // -------------------------------------------------------------------- invariant

  ghost predicate RowsOrdered(s: QueueState) {
    (forall i, j :: 0 <= i <= j < |s.rows| ==> s.rows[i].joinedAt <= s.rows[j].joinedAt)
    && (forall i :: 0 <= i < |s.rows| ==> s.rows[i].joinedAt <= s.clock)
  }

  ghost predicate ClaimsTimed(lim: Limits, s: QueueState) {
    forall i :: 0 <= i < |s.rows| && s.rows[i].status == Claimed ==>
      s.rows[i].claimedAt.Some? && s.rows[i].deadline == Some(s.rows[i].claimedAt.value + lim.slotDeadlineSecs)
  }

  ghost predicate OneLive(s: QueueState) {
    forall tier, i, j | 0 <= i < |s.rows| && 0 <= j < |s.rows| ::
      IsLive(s.rows[i], tier, s.clock) && IsLive(s.rows[j], tier, s.clock) ==> i == j
  }

  /** Claimed rows went in order of joining, and no queued row joined before any of them. */
  ghost predicate ClaimsFifo(s: QueueState) {
    (forall a :: 0 <= a < |s.claims| ==> s.claims[a] < |s.rows|)
    && (forall a, j | 0 <= a < |s.claims| && 0 <= j < |s.rows| ::
          s.rows[j].status == Queued && s.rows[j].tier == s.rows[s.claims[a]].tier
          ==> s.rows[s.claims[a]].joinedAt <= s.rows[j].joinedAt)
    && (forall a, b | 0 <= a < b < |s.claims| ::
          s.rows[s.claims[a]].tier == s.rows[s.claims[b]].tier
          ==> s.rows[s.claims[a]].joinedAt <= s.rows[s.claims[b]].joinedAt)
  }

  ghost predicate Inv(lim: Limits, s: QueueState) {
    RowsOrdered(s) && ClaimsTimed(lim, s) && OneLive(s) && ClaimsFifo(s)
  }

  lemma OrderedKept(lim: Limits, s: QueueState, e: Event, s': QueueState)
    requires RowsOrdered(s) && Next(lim, s, e, s')
    ensures RowsOrdered(s')
  {
    StepsFollowLifecycle(lim, s, e, s');
    forall i | 0 <= i < |s.rows| ensures s'.rows[i].joinedAt == s.rows[i].joinedAt {
      assert RowStep(lim, s.rows[i], s'.rows[i], s'.clock);
    }
  }

  lemma TimedKept(lim: Limits, s: QueueState, e: Event, s': QueueState)
    requires ClaimsTimed(lim, s) && Next(lim, s, e, s')
    ensures ClaimsTimed(lim, s')
  {
    StepsFollowLifecycle(lim, s, e, s');
    if e.Claim? && s'.rows != s.rows {
      var head: nat, cur: nat :|
        ClaimGranted(lim, s.rows, s'.rows, e.tier, e.pubkey, e.seen, e.check, s'.clock, head, cur);
    } else {
      forall i | 0 <= i < |s'.rows| && s'.rows[i].status == Claimed ensures i < |s.rows| && s'.rows[i] == s.rows[i] {
        NotNewlyClaimed(lim, s, e, s', i);
      }
    }
  }

  /** Only a granted claim turns a row into a claimed one. */
  lemma NotNewlyClaimed(lim: Limits, s: QueueState, e: Event, s': QueueState, i: nat)
    requires Next(lim, s, e, s') && (e.Claim? ==> s'.rows == s.rows)
    requires i < |s'.rows| && s'.rows[i].status == Claimed
    ensures i < |s.rows| && s'.rows[i] == s.rows[i]
  {
  }

  /** The latest claim decides for all: with equal slot lengths no earlier one ends later. */
  lemma FreeMeansNoneLive(lim: Limits, s: QueueState, tier: Tier, check: int, cur: nat)
    requires ClaimsTimed(lim, s) && cur < |s.rows|
    requires SlotFree(s.rows, tier, check, cur)
    ensures !AnyLive(s.rows, tier, check)
  {
    forall i | 0 <= i < |s.rows| ensures !IsLive(s.rows[i], tier, check) {
      if IsLive(s.rows[i], tier, check) {
        assert IsClaimed(s.rows, tier, i);
      }
    }
  }

  lemma OneLiveKept(lim: Limits, s: QueueState, e: Event, s': QueueState)
    requires ClaimsTimed(lim, s) && OneLive(s) && Next(lim, s, e, s')
    ensures OneLive(s')
  {
    StepsFollowLifecycle(lim, s, e, s');
    if e.Claim? && s'.rows != s.rows {
      var head: nat, cur: nat :|
        ClaimGranted(lim, s.rows, s'.rows, e.tier, e.pubkey, e.seen, e.check, s'.clock, head, cur);
      FreeMeansNoneLive(lim, s, e.tier, e.check, cur);
      assert s.rows[..e.seen][head] == s.rows[head];
      forall tier, i, j | 0 <= i < |s'.rows| && 0 <= j < |s'.rows|
        && IsLive(s'.rows[i], tier, s'.clock) && IsLive(s'.rows[j], tier, s'.clock)
        ensures i == j
      {
        if i != head {
          assert IsLive(s.rows[i], tier, s.clock) && IsLive(s.rows[i], tier, e.check);
        }
        if j != head {
          assert IsLive(s.rows[j], tier, s.clock) && IsLive(s.rows[j], tier, e.check);
        }
      }
    } else {
      forall tier, i, j | 0 <= i < |s'.rows| && 0 <= j < |s'.rows|
        && IsLive(s'.rows[i], tier, s'.clock) && IsLive(s'.rows[j], tier, s'.clock)
        ensures i == j
      {
        NotNewlyClaimed(lim, s, e, s', i);
        NotNewlyClaimed(lim, s, e, s', j);
        assert IsLive(s.rows[i], tier, s.clock) && IsLive(s.rows[j], tier, s.clock);
      }
    }
  }

  /** A head of the rows seen is a head of the whole table: later inserts joined later. */
  lemma HeadOfAll(s: QueueState, tier: Tier, seen: nat, head: nat)
    requires RowsOrdered(s) && head < seen <= |s.rows|
    requires IsHead(s.rows[..seen], tier, head)
    ensures IsHead(s.rows, tier, head)
  {
    var visible := s.rows[..seen];
    forall j | 0 <= j < |s.rows| && IsQueued(s.rows, tier, j) ensures s.rows[head].joinedAt <= s.rows[j].joinedAt {
      if j < seen {
        assert IsQueued(visible, tier, j);
      }
    }
  }

  lemma FifoKept(lim: Limits, s: QueueState, e: Event, s': QueueState)
    requires RowsOrdered(s) && ClaimsFifo(s) && Next(lim, s, e, s')
    ensures ClaimsFifo(s')
  {
    StepsFollowLifecycle(lim, s, e, s');
    forall i | 0 <= i < |s.rows| ensures SameJoining(s.rows[i], s'.rows[i]) {
      assert RowStep(lim, s.rows[i], s'.rows[i], s'.clock);
    }
    if s'.claims != s.claims {
      var head: nat, cur: nat :|
        ClaimGranted(lim, s.rows, s'.rows, e.tier, e.pubkey, e.seen, e.check, s'.clock, head, cur)
        && s'.claims == s.claims + [head];
      HeadOfAll(s, e.tier, e.seen, head);
      FifoClaimed(s, s', head);
    } else {
      FifoUnclaimed(s, s');
    }
  }

  /** One row before and after a step: who joined when stays, and no row returns to the queue. */
  predicate SameJoining(a: Signup, b: Signup) {
    b.joinedAt == a.joinedAt && b.tier == a.tier && (b.status == Queued ==> a.status == Queued)
  }

  lemma FifoClaimed(s: QueueState, s': QueueState, head: nat)
    requires ClaimsFifo(s) && |s'.rows| == |s.rows| && head < |s.rows| && s'.claims == s.claims + [head]
    requires forall i :: 0 <= i < |s.rows| ==> SameJoining(s.rows[i], s'.rows[i])
    requires IsHead(s.rows, s.rows[head].tier, head)
    ensures ClaimsFifo(s')
  {
    forall j | 0 <= j < |s.rows| && s.rows[j].status == Queued && s.rows[j].tier == s.rows[head].tier
      ensures s.rows[head].joinedAt <= s.rows[j].joinedAt
    {
      assert IsQueued(s.rows, s.rows[head].tier, j);
    }
  }

  lemma FifoUnclaimed(s: QueueState, s': QueueState)
    requires RowsOrdered(s) && ClaimsFifo(s) && |s.rows| <= |s'.rows| && s'.claims == s.claims && s.clock <= s'.clock
    requires forall i :: 0 <= i < |s.rows| ==> SameJoining(s.rows[i], s'.rows[i])
    requires forall i :: |s.rows| <= i < |s'.rows| ==> s'.rows[i].joinedAt == s'.clock
    ensures ClaimsFifo(s')
  {
  }

  lemma InvKept(lim: Limits, s: QueueState, e: Event, s': QueueState)
    requires Inv(lim, s) && Next(lim, s, e, s')
    ensures Inv(lim, s')
  {
    OrderedKept(lim, s, e, s');
    TimedKept(lim, s, e, s');
    OneLiveKept(lim, s, e, s');
    FifoKept(lim, s, e, s');
  }

  lemma {:induction false} InvAlways(lim: Limits, states: seq<QueueState>, events: seq<Event>, n: nat)
    requires Run(lim, states, events) && n < |states|
    ensures Inv(lim, states[n])
    decreases n
  {
    if n > 0 {
      InvAlways(lim, states, events, n - 1);
      InvKept(lim, states[n - 1], events[n - 1], states[n]);
    }
  }

  // --------------------------------------------------------------------- theorems

  /** In every reachable state each tier has at most one claimed row whose deadline is
      ahead, however many lapsed claims are still on the table. */
  lemma SlotExclusive(lim: Limits, states: seq<QueueState>, events: seq<Event>, n: nat, i: nat, j: nat)
    requires Run(lim, states, events) && n < |states|
    requires i < |states[n].rows| && j < |states[n].rows|
    requires var a, b := states[n].rows[i], states[n].rows[j];
      a.tier == b.tier && a.status == b.status == Claimed
      && (a.deadline.Some? ==> a.deadline.value > states[n].clock)
      && (b.deadline.Some? ==> b.deadline.value > states[n].clock)
    ensures i == j
  {
    InvAlways(lim, states, events, n);
    var tier, clock := states[n].rows[i].tier, states[n].clock;
    assert IsLive(states[n].rows[i], tier, clock) && IsLive(states[n].rows[j], tier, clock);
  }

  /** Step `k` claims row `i`. */
  ghost predicate ClaimedAt(states: seq<QueueState>, k: nat, i: nat)
    requires k + 1 < |states|
  {
    i < |states[k].rows| && i < |states[k + 1].rows|
    && states[k].rows[i].status == Queued && states[k + 1].rows[i].status == Claimed
  }

  /** When a row is claimed no queued row of its tier joined earlier, and no claim of its
      tier still has its deadline ahead. */
  lemma ClaimTakesFirst(lim: Limits, states: seq<QueueState>, events: seq<Event>, k: nat, i: nat, j: nat)
    requires Run(lim, states, events) && k < |events| && ClaimedAt(states, k, i)
    requires j < |states[k].rows| && states[k].rows[j].tier == states[k].rows[i].tier
    ensures states[k].rows[j].status == Queued ==> states[k].rows[i].joinedAt <= states[k].rows[j].joinedAt
    ensures states[k].rows[j].status == Claimed ==>
      states[k].rows[j].deadline.Some? && states[k].rows[j].deadline.value <= states[k + 1].clock
  {
    var s, e, s' := states[k], events[k], states[k + 1];
    InvAlways(lim, states, events, k);
    StepsFollowLifecycle(lim, s, e, s');
    var head: nat, cur: nat :|
      ClaimGranted(lim, s.rows, s'.rows, e.tier, e.pubkey, e.seen, e.check, s'.clock, head, cur);
    assert head == i;
    HeadOfAll(s, e.tier, e.seen, head);
    FreeMeansNoneLive(lim, s, e.tier, e.check, cur);
    assert IsQueued(s.rows, e.tier, i);
    if s.rows[j].status == Queued {
      assert IsQueued(s.rows, e.tier, j);
    } else if s.rows[j].status == Claimed {
      assert !IsLive(s.rows[j], e.tier, e.check);
    }
  }

  /** First come, first served: over any run the rows of a tier are claimed in order of
      joining. */
  lemma ClaimsInOrder(lim: Limits, states: seq<QueueState>, events: seq<Event>, m: nat, n: nat, i: nat, j: nat)
    requires Run(lim, states, events) && m < n < |events|
    requires ClaimedAt(states, m, i) && ClaimedAt(states, n, j)
    requires states[m].rows[i].tier == states[n].rows[j].tier
    ensures states[m].rows[i].joinedAt <= states[n].rows[j].joinedAt
  {
    if j < |states[m].rows| {
      RowsStay(lim, states, events, m, n, j);
      ClaimTakesFirst(lim, states, events, m, i, j);
    } else {
      RowsStay(lim, states, events, m, n, i);
      InvAlways(lim, states, events, n);
    }
  }

  // ----------------------------------------------------------------------- reaper

  /** A claim of the tier whose deadline has passed. */
  ghost predicate Lapsed(rows: seq<Signup>, tier: Tier, now: int, i: nat)
    requires i < |rows|
  {
    rows[i].tier == tier && rows[i].status == Claimed && rows[i].deadline.Some? && rows[i].deadline.value < now
  }

  /** No claim of the tier has its deadline ahead. */
  ghost predicate NoneAhead(rows: seq<Signup>, tier: Tier, now: int) {
    forall i :: 0 <= i < |rows| && rows[i].tier == tier && rows[i].status == Claimed && rows[i].deadline.Some? ==>
      rows[i].deadline.value <= now
  }

  /** A first row of the queue that has idled: its joining, the tier's latest round, the
      epoch and every lapsed deadline lie more than the limit back. */
  ghost predicate IdleFirst(lim: Limits, rows: seq<Signup>, tier: Tier, latestRoundAt: int, now: int, i: nat)
    requires i < |rows|
  {
    rows[i].tier == tier && rows[i].status == Queued
    && (forall j :: 0 <= j < |rows| && rows[j].tier == tier && rows[j].status == Queued ==>
          rows[i].joinedAt <= rows[j].joinedAt)
    && rows[i].joinedAt + lim.queueIdleSecs < now
    && latestRoundAt + lim.queueIdleSecs < now
    && lim.queueIdleSecs < now
    && forall j: nat | j < |rows| && Lapsed(rows, tier, now, j) :: rows[j].deadline.value + lim.queueIdleSecs < now
  }

  /** What a pass may do to a row: nothing, or expire it as a lapsed claim or an idle head. */
  ghost predicate ReapsRow(lim: Limits, rows: seq<Signup>, row: Signup, tier: Tier, latestRoundAt: int, now: int, i: nat)
    requires i < |rows|
  {
    row == rows[i]
    || (row == rows[i].(status := Expired)
        && (Lapsed(rows, tier, now, i)
            || (NoneAhead(rows, tier, now) && IdleFirst(lim, rows, tier, latestRoundAt, now, i))))
  }

  /** One pass in plain terms: it expires all lapsed claims and, if no claim is ahead and a
      first row has idled, one such row; it changes nothing else. */
  ghost predicate ReapMeans(lim: Limits, rows: seq<Signup>, rows': seq<Signup>, tier: Tier, latestRoundAt: int, now: int) {
    |rows'| == |rows|
    && (forall i: nat | i < |rows| :: ReapsRow(lim, rows, rows'[i], tier, latestRoundAt, now, i))
    && (forall i: nat | i < |rows| && Lapsed(rows, tier, now, i) :: rows'[i].status == Expired)
    && (forall i: nat, j: nat | i < |rows| && j < |rows| && rows[i].status == rows[j].status == Queued ::
          rows'[i].status == rows'[j].status == Expired ==> i == j)
    && (NoneAhead(rows, tier, now) && (exists i: nat | i < |rows| :: IdleFirst(lim, rows, tier, latestRoundAt, now, i)) ==>
          exists i: nat | i < |rows| :: rows[i].status == Queued && rows'[i].status == Expired)
  }

  /** The maximum of the lapsed deadlines and zero, met by each of them. */
  lemma {:induction false} LastClaimEndMeans(rows: seq<Signup>, tier: Tier, now: int, limit: int)
    ensures LastClaimEnd(rows, tier, now) < limit <==>
      0 < limit && forall j: nat | j < |rows| && Lapsed(rows, tier, now, j) :: rows[j].deadline.value < limit
  {
    if rows != [] {
      var n := |rows| - 1;
      var before := rows[..n];
      LastClaimEndMeans(before, tier, now, limit);
      assert forall j: nat | j < n :: Lapsed(before, tier, now, j) <==> Lapsed(rows, tier, now, j);
    }
  }

  /** The head check of the code is that of the plain terms. */
  lemma HeadIsIdleFirst(lim: Limits, rows: seq<Signup>, tier: Tier, latestRoundAt: int, now: int, i: nat)
    requires i < |rows| && IsHead(WithoutStale(rows, tier, now), tier, i)
    ensures rows[i] == WithoutStale(rows, tier, now)[i] && rows[i].status == Queued
    ensures HeadIdle(lim, rows[i].joinedAt, latestRoundAt, LastClaimEnd(rows, tier, now), now)
      <==> IdleFirst(lim, rows, tier, latestRoundAt, now, i)
  {
    var swept := WithoutStale(rows, tier, now);
    LastClaimEndMeans(rows, tier, now, now - lim.queueIdleSecs);
    forall j | 0 <= j < |rows| && rows[j].tier == tier && rows[j].status == Queued
      ensures rows[i].joinedAt <= rows[j].joinedAt
    {
      assert IsQueued(swept, tier, j);
    }
  }

  lemma LiveIsAhead(rows: seq<Signup>, tier: Tier, now: int)
    ensures AnyLive(WithoutStale(rows, tier, now), tier, now) <==> !NoneAhead(rows, tier, now)
  {
    var swept := WithoutStale(rows, tier, now);
    forall i | 0 <= i < |rows|
      ensures IsLive(swept[i], tier, now) <==>
        rows[i].tier == tier && rows[i].status == Claimed && rows[i].deadline.Some? && rows[i].deadline.value > now
    {
    }
  }

  /** What the reaper's pass does, row by row. */
  lemma ReaperExpires(lim: Limits, rows: seq<Signup>, rows': seq<Signup>, tier: Tier, latestRoundAt: int, now: int)
    requires ReapStep(lim, rows, rows', tier, latestRoundAt, now)
    ensures ReapMeans(lim, rows, rows', tier, latestRoundAt, now)
  {
    var swept := WithoutStale(rows, tier, now);
    LiveIsAhead(rows, tier, now);
    if AnyLive(swept, tier, now) {
    } else if !AnyQueued(swept, tier) {
      forall i: nat | i < |rows| ensures !IdleFirst(lim, rows, tier, latestRoundAt, now, i) {
        assert !IsQueued(swept, tier, i);
      }
    } else {
      var head: nat :| head < |rows| && SweptHead(lim, rows, rows', tier, latestRoundAt, now, head);
      HeadIsIdleFirst(lim, rows, tier, latestRoundAt, now, head);
      forall i: nat | i < |rows| && IdleFirst(lim, rows, tier, latestRoundAt, now, i)
        ensures IdleFirst(lim, rows, tier, latestRoundAt, now, head)
      {
        assert IsQueued(swept, tier, i);
      }
      SweptMeans(lim, rows, rows', tier, latestRoundAt, now, head);
    }
  }

  lemma SweptMeans(lim: Limits, rows: seq<Signup>, rows': seq<Signup>, tier: Tier, latestRoundAt: int, now: int, head: nat)
    requires head < |rows| && rows[head].status == Queued && NoneAhead(rows, tier, now)
    requires (exists i: nat | i < |rows| :: IdleFirst(lim, rows, tier, latestRoundAt, now, i))
      ==> IdleFirst(lim, rows, tier, latestRoundAt, now, head)
    requires rows' == (if IdleFirst(lim, rows, tier, latestRoundAt, now, head)
                       then WithStatus(WithoutStale(rows, tier, now), head, Expired) else WithoutStale(rows, tier, now))
    ensures ReapMeans(lim, rows, rows', tier, latestRoundAt, now)
  {
  }
}
