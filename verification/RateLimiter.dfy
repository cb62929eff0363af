/** The relayer's fixed-window rate limiter, over whole runs. */
module RateLimiter {

  /** Instants count nanoseconds; a duration's whole seconds are the quotient. */
  const NANOS: nat := 1_000_000_000
  const WINDOW: nat := 60
  const U32: nat := 0x1_0000_0000

  datatype Bucket = Bucket(start: nat, count: nat)

  type Buckets = map<string, Bucket>

  datatype Call = Call(at: nat, ip: string)

  /** The bucket as one call leaves it.  The counter is a u32: it wraps (builds with
      overflow checks panic instead). */
  function Touch(b: Bucket, now: nat): Bucket {
    var elapsed := if now >= b.start then (now - b.start) / NANOS else 0;
    var entry := if elapsed >= WINDOW then Bucket(now, 0) else b;
    entry.(count := (entry.count + 1) % U32)
  }

  function Entry(buckets: Buckets, call: Call): Bucket {
    Touch(if call.ip in buckets then buckets[call.ip] else Bucket(call.at, 0), call.at)
  }

  class Limiter {
    var buckets: Buckets
    const maxPerMinute: nat

    constructor (maxPerMinute: nat)
      ensures buckets == map[] && this.maxPerMinute == maxPerMinute
    {
      buckets := map[];
      this.maxPerMinute := maxPerMinute;
    }

    method Check(ip: string, now: nat) returns (allowed: bool)
      modifies this
      ensures buckets == old(buckets)[ip := Entry(old(buckets), Call(now, ip))]
      ensures allowed <==> Entry(old(buckets), Call(now, ip)).count <= maxPerMinute
    {
      if ip !in buckets {
        buckets := buckets[ip := Bucket(now, 0)];
      }
      var elapsed := if now >= buckets[ip].start then (now - buckets[ip].start) / NANOS else 0;
      if elapsed >= WINDOW {
        buckets := buckets[ip := Bucket(now, 0)];
      }
      buckets := buckets[ip := buckets[ip].(count := (buckets[ip].count + 1) % U32)];
      allowed := buckets[ip].count <= maxPerMinute;
    }
  }

  // ------------------------------------------------------------------------ runs

  /** The buckets after the first `n` calls of a run. */
  function After(run: seq<Call>, n: nat): Buckets
    requires n <= |run|
  {
    if n == 0 then map[]
    else After(run, n - 1)[run[n - 1].ip := Entry(After(run, n - 1), run[n - 1])]
  }

  predicate Granted(run: seq<Call>, max: nat, i: nat)
    requires i < |run|
  {
    Entry(After(run, i), run[i]).count <= max
  }

  ghost predicate Ordered(run: seq<Call>) {
    forall i, j :: 0 <= i < j < |run| ==> run[i].at <= run[j].at
  }

  // Stretches of time are written in nanoseconds: sixty seconds are 60_000_000_000.

  /** Calls of one address among the first `n` that fall in [from, to). */
  function CallsIn(run: seq<Call>, ip: string, from: nat, to: nat, n: nat): nat
    requires n <= |run|
  {
    if n == 0 then 0
    else CallsIn(run, ip, from, to, n - 1) + (if run[n - 1].ip == ip && from <= run[n - 1].at < to then 1 else 0)
  }

  /** Those of them that are granted. */
  function GrantedIn(run: seq<Call>, max: nat, ip: string, from: nat, to: nat, n: nat): nat
    requires n <= |run|
  {
    if n == 0 then 0
    else
      GrantedIn(run, max, ip, from, to, n - 1)
      + (if run[n - 1].ip == ip && from <= run[n - 1].at < to && Granted(run, max, n - 1) then 1 else 0)
  }

  function Min(a: nat, b: nat): nat {
    if a <= b then a else b
  }

  function Fewer(n: nat): nat {
    if n == 0 then 0 else n - 1
  }

  // ------------------------------------------------------------------ one window

  /** Grants among the first `k` calls of a window: the counter shows `k` modulo 2^32. */
  function Grants(max: nat, k: nat): nat {
    if k == 0 then 0 else Grants(max, k - 1) + (if k % 0x1_0000_0000 <= max then 1 else 0)
  }

  /** The limit is exceeded exactly from the call on that brings the counter back to zero. */
  lemma {:induction false} GrantsBound(max: nat, k: nat)
    requires max < 0x1_0000_0000
    ensures k < 0x1_0000_0000 ==> Grants(max, k) == Min(k, max)
    ensures k >= 0x1_0000_0000 ==> Grants(max, k) > max
  {
    if k > 0 {
      GrantsBound(max, k - 1);
    }
  }

  lemma WrapStep(k: nat)
    ensures (k % 0x1_0000_0000 + 1) % 0x1_0000_0000 == (k + 1) % 0x1_0000_0000
  {
  }

  /** A bucket against the first `n` calls: the window began with one of its address's calls,
      none came after the window, and the counter is the window's calls modulo 2^32. */
  ghost predicate WindowOf(run: seq<Call>, max: nat, ip: string, b: Bucket, n: nat)
    requires n <= |run|
  {
    var k := CallsIn(run, ip, b.start, b.start + 60_000_000_000, n);
    k >= 1 && b.count == k % 0x1_0000_0000
    && GrantedIn(run, max, ip, b.start, b.start + 60_000_000_000, n) == Grants(max, k)
    && n >= 1 && b.start <= run[n - 1].at
    && forall i :: 0 <= i < n && run[i].ip == ip ==> run[i].at < b.start + 60_000_000_000
  }

  ghost predicate WindowState(run: seq<Call>, max: nat, ip: string, n: nat)
    requires n <= |run|
  {
    if ip in After(run, n) then WindowOf(run, max, ip, After(run, n)[ip], n)
    else forall i :: 0 <= i < n ==> run[i].ip != ip
  }

  /** Calls of an address that all came before an interval leave it empty. */
  lemma {:induction false} NoneYet(run: seq<Call>, max: nat, ip: string, from: nat, to: nat, n: nat)
    requires n <= |run| && forall i :: 0 <= i < n && run[i].ip == ip ==> run[i].at < from
    ensures CallsIn(run, ip, from, to, n) == 0 && GrantedIn(run, max, ip, from, to, n) == 0
  {
    if n > 0 {
      NoneYet(run, max, ip, from, to, n - 1);
    }
  }

  /** A window ends sixty seconds after it began; a clock that went back ends none. */
  lemma TouchMeans(b: Bucket, now: nat)
    ensures Touch(b, now) ==
      if now >= b.start + 60_000_000_000 then Bucket(now, 1) else Bucket(b.start, (b.count + 1) % 0x1_0000_0000)
    ensures b.count + 1 < 0x1_0000_0000 ==> (b.count + 1) % 0x1_0000_0000 == b.count + 1
  {
  }

  lemma WindowOpens(run: seq<Call>, max: nat, ip: string, n: nat)
    requires n < |run| && run[n].ip == ip && Ordered(run)
    requires forall i :: 0 <= i < n && run[i].ip == ip ==> run[i].at < run[n].at
    requires Entry(After(run, n), run[n]) == Bucket(run[n].at, 1)
    ensures WindowOf(run, max, ip, Bucket(run[n].at, 1), n + 1)
  {
    var from := run[n].at;
    NoneYet(run, max, ip, from, from + 60_000_000_000, n);
    assert Granted(run, max, n) <==> 1 <= max;
    assert Grants(max, 0) == 0 && Grants(max, 1) == if 1 <= max then 1 else 0;
  }

  lemma WindowGoesOn(run: seq<Call>, max: nat, ip: string, b: Bucket, n: nat)
    requires n < |run| && run[n].ip == ip && WindowOf(run, max, ip, b, n)
    requires b.start <= run[n].at < b.start + 60_000_000_000
    requires Entry(After(run, n), run[n]) == Bucket(b.start, (b.count + 1) % 0x1_0000_0000)
    ensures WindowOf(run, max, ip, Bucket(b.start, (b.count + 1) % 0x1_0000_0000), n + 1)
  {
    WrapStep(CallsIn(run, ip, b.start, b.start + 60_000_000_000, n));
  }

  lemma WindowStep(run: seq<Call>, max: nat, ip: string, n: nat)
    requires Ordered(run) && n < |run| && WindowState(run, max, ip, n)
    ensures WindowState(run, max, ip, n + 1)
  {
    var call := run[n];
    if call.ip == ip {
      var b := if ip in After(run, n) then After(run, n)[ip] else Bucket(call.at, 0);
      TouchMeans(b, call.at);
      if ip in After(run, n) && call.at < b.start + 60_000_000_000 {
        WindowGoesOn(run, max, ip, b, n);
      } else {
        WindowOpens(run, max, ip, n);
      }
    }
  }

  lemma {:induction false} WindowHolds(run: seq<Call>, max: nat, ip: string, n: nat)
    requires Ordered(run) && n <= |run|
    ensures WindowState(run, max, ip, n)
  {
    if n > 0 {
      WindowHolds(run, max, ip, n - 1);
      WindowStep(run, max, ip, n - 1);
    }
  }

  /** The exact bound of a window: at most the limit is granted in it if and only if it
      receives fewer calls than the u32 counter can count. */
  lemma WindowBound(run: seq<Call>, max: nat, ip: string, n: nat)
    requires Ordered(run) && n <= |run| && max < 0x1_0000_0000 && ip in After(run, n)
    ensures var start := After(run, n)[ip].start;
      GrantedIn(run, max, ip, start, start + 60_000_000_000, n) <= max
      <==> CallsIn(run, ip, start, start + 60_000_000_000, n) < 0x1_0000_0000
  {
    var start := After(run, n)[ip].start;
    WindowHolds(run, max, ip, n);
    GrantsBound(max, CallsIn(run, ip, start, start + 60_000_000_000, n));
  }

  // ------------------------------------------------------------ any sixty seconds

  /** The current window has not received as many calls as would wrap its counter. */
  ghost predicate CounterFits(run: seq<Call>, ip: string, n: nat)
    requires n <= |run|
  {
    ip in After(run, n) ==>
      var start := After(run, n)[ip].start;
      CallsIn(run, ip, start, start + 60_000_000_000, n) < 0x1_0000_0000
  }

  /** No window of the address receives 2^32 calls. */
  ghost predicate CountersFit(run: seq<Call>, ip: string) {
    forall n: nat :: n <= |run| ==> CounterFits(run, ip, n)
  }

  /** What a bucket knows of the grants in one interval of one window length: one window's
      grants while the current window began with the interval, one less if it began before
      (its first call is granted and lies outside), none once it lies wholly before; both
      together while it began inside. */
  ghost predicate BucketBound(b: Bucket, granted: nat, max: nat, from: nat) {
    (b.start < from ==> granted <= Fewer(Min(b.count, max)))
    && (b.start == from ==> granted <= Min(b.count, max))
    && (from < b.start < from + 60_000_000_000 ==> granted <= Fewer(max) + Min(b.count, max))
    && (b.start + 60_000_000_000 <= from ==> granted == 0)
    && granted <= Fewer(2 * max)
  }

  predicate Hit(b: Bucket, now: nat, max: nat, from: nat) {
    from <= now < from + 60_000_000_000 && b.count <= max
  }

  lemma TouchKeepsBound(b: Bucket, granted: nat, max: nat, from: nat, now: nat)
    requires b.start <= now && (b.count + 1 < 0x1_0000_0000 || now >= b.start + 60_000_000_000)
    requires b.count >= 1 || b.start == now
    requires BucketBound(b, granted, max, from)
    ensures var after := Touch(b, now);
      BucketBound(after, granted + (if Hit(after, now, max, from) then 1 else 0), max, from)
  {
    TouchMeans(b, now);
  }

  ghost predicate IntervalBound(run: seq<Call>, max: nat, ip: string, from: nat, n: nat)
    requires n <= |run|
  {
    var granted := GrantedIn(run, max, ip, from, from + 60_000_000_000, n);
    if ip !in After(run, n) then granted == 0 else BucketBound(After(run, n)[ip], granted, max, from)
  }

  /** While its window fits, the counter is the number of the window's calls. */
  lemma CounterOf(run: seq<Call>, max: nat, ip: string, n: nat)
    requires Ordered(run) && n < |run| && run[n].ip == ip && ip in After(run, n)
    requires CounterFits(run, ip, n) && CounterFits(run, ip, n + 1)
    ensures var b := After(run, n)[ip];
      1 <= b.count && b.start <= run[n].at && (b.count + 1 < 0x1_0000_0000 || run[n].at >= b.start + 60_000_000_000)
  {
    var b := After(run, n)[ip];
    WindowHolds(run, max, ip, n);
    TouchMeans(b, run[n].at);
  }

  lemma IntervalStep(run: seq<Call>, max: nat, ip: string, from: nat, n: nat)
    requires Ordered(run) && n < |run|
    requires CounterFits(run, ip, n) && CounterFits(run, ip, n + 1)
    requires IntervalBound(run, max, ip, from, n)
    ensures IntervalBound(run, max, ip, from, n + 1)
  {
    var call := run[n];
    if call.ip == ip {
      var granted := GrantedIn(run, max, ip, from, from + 60_000_000_000, n);
      var b := if ip in After(run, n) then After(run, n)[ip] else Bucket(call.at, 0);
      if ip in After(run, n) {
        CounterOf(run, max, ip, n);
      }
      TouchKeepsBound(b, granted, max, from, call.at);
      assert After(run, n + 1)[ip] == Touch(b, call.at);
    }
  }

  lemma {:induction false} IntervalHolds(run: seq<Call>, max: nat, ip: string, from: nat, n: nat)
    requires Ordered(run) && n <= |run| && CountersFit(run, ip)
    ensures IntervalBound(run, max, ip, from, n)
  {
    if n > 0 {
      IntervalHolds(run, max, ip, from, n - 1);
      assert CounterFits(run, ip, n - 1) && CounterFits(run, ip, n);
      IntervalStep(run, max, ip, from, n - 1);
    }
  }

  /** Over every run with a nondecreasing clock, any half-open stretch of sixty seconds
      holds fewer than twice the limit of granted calls of one address, provided none of its
      windows receives 2^32 calls. */
  lemma SlidingBound(run: seq<Call>, max: nat, ip: string, from: nat)
    requires Ordered(run) && CountersFit(run, ip)
    ensures GrantedIn(run, max, ip, from, from + 60_000_000_000, |run|) <= Fewer(2 * max)
  {
    IntervalHolds(run, max, ip, from, |run|);
  }

  lemma {:induction false} GrantedMono(run: seq<Call>, max: nat, ip: string, from: nat, to: nat, m: nat, n: nat)
    requires m <= n <= |run|
    ensures GrantedIn(run, max, ip, from, to, m) <= GrantedIn(run, max, ip, from, to, n)
  {
    if m < n {
      GrantedMono(run, max, ip, from, to, m, n - 1);
    }
  }

  ghost predicate Bounded(run: seq<Call>, max: nat, ip: string, from: nat) {
    GrantedIn(run, max, ip, from, from + 60_000_000_000, |run|) <= Fewer(2 * max)
  }

  /** The proviso is exact: the bound holds of every limit and every stretch if and only if no
      window receives 2^32 calls. */
  lemma SlidingBoundExact(run: seq<Call>, ip: string)
    requires Ordered(run)
    ensures CountersFit(run, ip) <==> forall max: nat, from: nat | max < 0x1_0000_0000 :: Bounded(run, max, ip, from)
  {
    if CountersFit(run, ip) {
      forall max: nat, from: nat | max < 0x1_0000_0000 ensures Bounded(run, max, ip, from) {
        SlidingBound(run, max, ip, from);
      }
    } else {
      var n: nat :| n <= |run| && !CounterFits(run, ip, n);
      var start := After(run, n)[ip].start;
      WindowBound(run, 1, ip, n);
      GrantedMono(run, 1, ip, start, start + 60_000_000_000, n, |run|);
      assert !Bounded(run, 1, ip, start);
    }
  }

  /** A run that reaches the bound: one call, the rest of its window just before that ends,
      and a full window from there. */
  function Straddle(max: nat, ip: string): (run: seq<Call>)
    ensures |run| == 2 * max
  {
    seq(2 * max, i requires 0 <= i =>
      Call(if i == 0 then 0 else if i < max then 59_999_999_999 else 60_000_000_000, ip))
  }

  ghost predicate StraddleAt(run: seq<Call>, max: nat, ip: string, k: nat)
    requires k <= |run|
  {
    ip in After(run, k)
    && After(run, k)[ip] == (if k <= max then Bucket(0, k) else Bucket(60_000_000_000, k - max))
    && GrantedIn(run, max, ip, 59_999_999_999, 119_999_999_999, k) == k - 1
  }

  lemma StraddleStep(run: seq<Call>, max: nat, ip: string, k: nat)
    requires 1 <= max < 0x1_0000_0000 && 1 <= k < |run| == 2 * max && StraddleAt(run, max, ip, k)
    requires run[k] == Call(if k < max then 59_999_999_999 else 60_000_000_000, ip)
    ensures StraddleAt(run, max, ip, k + 1)
  {
    TouchMeans(After(run, k)[ip], run[k].at);
  }

  lemma {:induction false} StraddleGrants(max: nat, ip: string, k: nat)
    requires 1 <= max < 0x1_0000_0000 && 1 <= k <= 2 * max
    ensures StraddleAt(Straddle(max, ip), max, ip, k)
  {
    var run := Straddle(max, ip);
    if k == 1 {
      assert After(run, 0) == map[];
      assert GrantedIn(run, max, ip, 59_999_999_999, 119_999_999_999, 0) == 0;
    } else {
      StraddleGrants(max, ip, k - 1);
      StraddleStep(run, max, ip, k - 1);
    }
  }

  /** The bound is reached for every limit. */
  lemma SlidingBoundIsTight(max: nat, ip: string)
    requires 1 <= max < 0x1_0000_0000
    ensures Ordered(Straddle(max, ip))
    ensures GrantedIn(Straddle(max, ip), max, ip, 59_999_999_999, 119_999_999_999, 2 * max) == 2 * max - 1
  {
    StraddleGrants(max, ip, 2 * max);
  }

  // ------------------------------------------------------- other addresses

  /** The calls of one address, in order. */
  function Only(run: seq<Call>, ip: string): seq<Call> {
    if run == [] then []
    else
      var n := |run| - 1;
      if run[n].ip == ip then Only(run[..n], ip) + [run[n]] else Only(run[..n], ip)
  }

  lemma {:induction false} AfterPrefix(run: seq<Call>, m: nat, n: nat)
    requires n <= m <= |run|
    ensures After(run[..m], n) == After(run, n)
  {
    if n > 0 {
      AfterPrefix(run, m, n - 1);
    }
  }

  /** An address sees the same bucket whether or not the others call. */
  lemma {:induction false} OthersDoNotMatter(run: seq<Call>, ip: string)
    ensures var alone := Only(run, ip);
      var all, mine := After(run, |run|), After(alone, |alone|);
      (ip in all <==> ip in mine) && (ip in all ==> all[ip] == mine[ip])
  {
    if run != [] {
      var n := |run| - 1;
      OthersDoNotMatter(run[..n], ip);
      AfterPrefix(run, n, n);
      var before := Only(run[..n], ip);
      if run[n].ip == ip {
        assert (before + [run[n]])[..|before|] == before;
        AfterPrefix(before + [run[n]], |before|, |before|);
      }
    }
  }

  // ------------------------------------------------------------- the counter wraps

  function Burst(n: nat, ip: string): (run: seq<Call>)
    ensures |run| == n
  {
    seq(n, i => Call(0, ip))
  }

  lemma {:induction false} BurstCalls(n: nat, ip: string, k: nat)
    requires k <= n
    ensures CallsIn(Burst(n, ip), ip, 0, 60_000_000_000, k) == k
    ensures k >= 1 ==> ip in After(Burst(n, ip), k) && After(Burst(n, ip), k)[ip].start == 0
  {
    if k > 0 {
      BurstCalls(n, ip, k - 1);
      if k == 1 {
        assert After(Burst(n, ip), 0) == map[];
      }
    }
  }

  /** After the wrap a window grants as many again. */
  lemma {:induction false} GrantsAfterWrap(max: nat, k: nat)
    requires max < 0x1_0000_0000 && 0x1_0000_0000 <= k <= 0x1_0000_0000 + max
    ensures Grants(max, k) == max + 1 + (k - 0x1_0000_0000)
  {
    if k == 0x1_0000_0000 {
      GrantsBound(max, k - 1);
    } else {
      GrantsAfterWrap(max, k - 1);
    }
  }

  /** For every limit a run breaks the bound: 2^32 - 1 calls in one instant and as many more
      as the limit, of which the window grants twice the limit. */
  lemma CounterWraps(max: nat, ip: string)
    requires 1 <= max < 0x1_0000_0000
    ensures var run := Burst(0x1_0000_0000 + max - 1, ip);
      Ordered(run) && GrantedIn(run, max, ip, 0, 60_000_000_000, |run|) == 2 * max > Fewer(2 * max)
  {
    var run := Burst(0x1_0000_0000 + max - 1, ip);
    BurstCalls(|run|, ip, |run|);
    WindowHolds(run, max, ip, |run|);
    GrantsAfterWrap(max, |run|);
  }

  /** For one fixed limit above one the proviso is not needed: a window of exactly 2^32 calls
      grants one more than the limit, which stays within the bound. */
  lemma WrapWithinBound(max: nat, ip: string, from: nat)
    requires 2 <= max < 0x1_0000_0000
    ensures !CountersFit(Burst(0x1_0000_0000, ip), ip) && Bounded(Burst(0x1_0000_0000, ip), max, ip, from)
  {
    var run := Burst(0x1_0000_0000, ip);
    BurstCalls(0x1_0000_0000, ip, 0x1_0000_0000);
    assert !CounterFits(run, ip, 0x1_0000_0000);
    if from == 0 {
      WindowHolds(run, max, ip, 0x1_0000_0000);
      GrantsAfterWrap(max, 0x1_0000_0000);
    } else {
      NoneYet(run, max, ip, from, from + 60_000_000_000, 0x1_0000_0000);
    }
  }
}
