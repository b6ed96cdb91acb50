/**
 * The GCRA rate limiter of the write path: one theoretical arrival time (TAT) per API key,
 * in integer nanoseconds, with a dictionary that is pruned as it grows.
 */
module RateLimit {
  import opened Arith
  import opened Options

  /** An API key. */
  datatype Key = Key(token: string)

  const PRUNE_THRESHOLD: nat := 10000
  const NANOS_PER_SECOND: nat := 1000000000

  /** The two knobs: the emission interval in nanoseconds, and the burst. */
  datatype Config = Config(period: int, burst: int) {
    /** What the constructor accepts, once the period has been rounded to whole nanoseconds. */
    ghost predicate Valid() {
      period >= 1 && burst >= 1
    }

    /** The largest lead of a TAT over the clock at which a request still conforms. */
    function Tolerance(): int {
      (burst - 1) * period
    }
  }

  /** `retryAfter` is in nanoseconds; it is 0 for an admitted request. */
  datatype Decision = Decision(allowed: bool, remaining: int, limit: int, retryAfter: int)

  datatype Limiter = Limiter(tat: map<Key, int>, pruneAt: nat)

  datatype Request = Request(key: Key, now: int)

  // --- One check ---------------------------------------------------------------

  /** The TAT a check at `now` works with: a key behind `now`, or unknown, counts as `now`. */
  function Effective(tat: map<Key, int>, key: Key, now: int): int {
    Max(if key in tat then tat[key] else now, now)
  }

  /** The decision, given the tolerance. */
  function DecideWithin(tolerance: int, period: int, limit: int, tat: int, now: int): Decision
    requires period >= 1
  {
    if tat - now > tolerance then
      Decision(false, 0, limit, tat - tolerance - now)
    else
      Decision(true, Max(0, (now + tolerance - (tat + period)) / period + 1), limit, 0)
  }

  function Decide(c: Config, tat: int, now: int): Decision
    requires c.Valid()
  {
    DecideWithin(c.Tolerance(), c.period, c.burst, tat, now)
  }

  function Pruned(tat: map<Key, int>, now: int): map<Key, int> {
    map k | k in tat && tat[k] > now :: tat[k]
  }

  /** The dictionary and threshold after an admission stored `tat`. */
  function Settled(tat: map<Key, int>, pruneAt: nat, now: int): Limiter {
    if |tat| > pruneAt then
      Limiter(Pruned(tat, now), Max(PRUNE_THRESHOLD, 2 * |Pruned(tat, now)|))
    else
      Limiter(tat, pruneAt)
  }

  function CheckStep(c: Config, l: Limiter, q: Request): (Limiter, Decision)
    requires c.Valid()
  {
    var tat := Effective(l.tat, q.key, q.now);
    var d := Decide(c, tat, q.now);
    (if d.allowed then Settled(l.tat[q.key := tat + c.period], l.pruneAt, q.now) else l, d)
  }

  /** The limiter object. */
  class RateLimiter {
    const config: Config
    var tatNs: map<Key, int>
    var pruneAt: nat

    ghost function State(): Limiter
      reads this
    {
      Limiter(tatNs, pruneAt)
    }

    constructor (period: int, burst: int)
      requires Config(period, burst).Valid()
      ensures config == Config(period, burst)
      ensures State() == Limiter(map[], PRUNE_THRESHOLD)
    {
      config := Config(period, burst);
      tatNs := map[];
      pruneAt := PRUNE_THRESHOLD;
    }

    method Check(key: Key, nowNs: int) returns (d: Decision)
      requires config.Valid()
      modifies this
      ensures (State(), d) == CheckStep(config, old(State()), Request(key, nowNs))
    {
      var tolerance := (config.burst - 1) * config.period;
      var tat := Max(if key in tatNs then tatNs[key] else nowNs, nowNs);
      if tat - nowNs > tolerance {
        return Decision(false, 0, config.burst, tat - tolerance - nowNs);
      }
      var newTat := tat + config.period;
      tatNs := tatNs[key := newTat];
      if |tatNs| > pruneAt {
        Prune(nowNs);
      }
      var remaining := Max(0, (nowNs + tolerance - newTat) / config.period + 1);
      d := Decision(true, remaining, config.burst, 0);
    }

    method Prune(nowNs: int)
      modifies this
      ensures tatNs == Pruned(old(tatNs), nowNs)
      ensures pruneAt == Max(PRUNE_THRESHOLD, 2 * |tatNs|)
    {
      tatNs := map k | k in tatNs && tatNs[k] > nowNs :: tatNs[k];
      pruneAt := Max(PRUNE_THRESHOLD, 2 * |tatNs|);
    }
  }

  /** `RateLimiter(period, burst)`; `None` is the `ValueError` on a non-positive period or burst. */
  method NewRateLimiter(period: int, burst: int) returns (r: Option<RateLimiter>)
    ensures r.Some? <==> period > 0 && burst >= 1
    ensures r.Some? ==>
              && fresh(r.value) && r.value.config == Config(period, burst)
              && r.value.State() == Limiter(map[], PRUNE_THRESHOLD)
  {
    if period <= 0 || burst < 1 {
      return None;
    }
    var made := new RateLimiter(period, burst);
    r := Some(made);
  }

  // --- Runs of checks ----------------------------------------------------------

  /** The clock never goes back, starting from `from`. */
  ghost predicate Monotone(from: int, qs: seq<Request>)
    decreases |qs|
  {
    qs == [] || (from <= qs[0].now && Monotone(qs[0].now, qs[1..]))
  }

  function Decisions(c: Config, l: Limiter, qs: seq<Request>): (ds: seq<Decision>)
    requires c.Valid()
    ensures |ds| == |qs|
    decreases |qs|
  {
    if qs == [] then [] else [CheckStep(c, l, qs[0]).1] + Decisions(c, CheckStep(c, l, qs[0]).0, qs[1..])
  }

  function After(c: Config, l: Limiter, qs: seq<Request>): Limiter
    requires c.Valid()
    decreases |qs|
  {
    if qs == [] then l else After(c, CheckStep(c, l, qs[0]).0, qs[1..])
  }

  /** Every decision tells the burst as its limit; an admission asks for no wait, and a denial leaves nothing. */
  lemma {:induction false} DecisionsTellTheLimit(c: Config, l: Limiter, qs: seq<Request>, i: nat)
    requires c.Valid() && i < |qs|
    ensures var d := Decisions(c, l, qs)[i];
            d.limit == c.burst && (d.allowed ==> d.retryAfter == 0) && (!d.allowed ==> d.remaining == 0)
    decreases i
  {
    if i > 0 {
      DecisionsTellTheLimit(c, CheckStep(c, l, qs[0]).0, qs[1..], i - 1);
    }
  }

  // --- The reference: one exact token bucket per key ----------------------------

  /**
   * A bucket of `burst` tokens refilled one token per period.  The credit is exact: it counts
   * nanoseconds, and a whole token is worth `period` of them.
   */
  datatype Bucket = Bucket(credit: int, at: int)

  function Refilled(c: Config, b: Bucket, now: int): int {
    Min(c.burst * c.period, b.credit + (now - b.at))
  }

  /** Take a token if there is a whole one; the result tells whether there was, and how many are left. */
  function TakeFrom(credit: int, period: int, now: int): (Bucket, bool, int)
    requires period >= 1
  {
    if credit >= period then
      (Bucket(credit - period, now), true, (credit - period) / period)
    else
      (Bucket(credit, now), false, 0)
  }

  function Take(c: Config, b: Bucket, now: int): (Bucket, bool, int)
    requires c.Valid()
  {
    TakeFrom(Refilled(c, b, now), c.period, now)
  }

  /** The bucket of a key that has never been seen is full. */
  function BucketOf(c: Config, bs: map<Key, Bucket>, key: Key, now: int): Bucket {
    if key in bs then bs[key] else Bucket(c.burst * c.period, now)
  }

  /** What the client is told of one request: admitted or not, and tokens left. */
  datatype Verdict = Verdict(allowed: bool, remaining: int)

  function Verdicts(c: Config, bs: map<Key, Bucket>, qs: seq<Request>): (vs: seq<Verdict>)
    requires c.Valid()
    ensures |vs| == |qs|
    decreases |qs|
  {
    if qs == [] then [] else
      var (b, ok, left) := Take(c, BucketOf(c, bs, qs[0].key, qs[0].now), qs[0].now);
      [Verdict(ok, left)] + Verdicts(c, bs[qs[0].key := b], qs[1..])
  }

  /** At time `now` the bucket of every key holds exactly what its TAT leaves of the burst. */
  ghost predicate Matches(c: Config, tat: map<Key, int>, bs: map<Key, Bucket>, now: int) {
    forall key: Key ::
      Refilled(c, BucketOf(c, bs, key, now), now) == c.burst * c.period - (Effective(tat, key, now) - now)
  }

  lemma MatchesLater(c: Config, tat: map<Key, int>, bs: map<Key, Bucket>, from: int, now: int)
    requires c.Valid() && from <= now && Matches(c, tat, bs, from)
    requires forall key | key in bs :: bs[key].at <= from
    ensures Matches(c, tat, bs, now)
  {
    forall key: Key
      ensures Refilled(c, BucketOf(c, bs, key, now), now) == c.burst * c.period - (Effective(tat, key, now) - now)
    {
      assert Refilled(c, BucketOf(c, bs, key, from), from) == c.burst * c.period - (Effective(tat, key, from) - from);
    }
  }

  /** A TAT ahead by what a bucket of `full` is short of decides as the bucket does. */
  lemma WithinIsFrom(full: int, period: int, limit: int, tat: int, now: int)
    requires period >= 1 && now <= tat
    ensures var d := DecideWithin(full - period, period, limit, tat, now);
            var t := TakeFrom(full - (tat - now), period, now);
            && d.allowed == t.1 && d.remaining == t.2
            && t.0 == Bucket(full - ((if d.allowed then tat + period else tat) - now), now)
  {
    var left := full - (tat - now) - period;
    DivShift(left, period);
    if left >= 0 {
      DivIsFloor(left, period, 0);
    }
  }

  /** The decision on a TAT is the decision of a bucket that is short by `tat - now`. */
  lemma DecideIsTake(c: Config, tat: int, now: int, b: Bucket)
    requires c.Valid() && Refilled(c, b, now) == c.burst * c.period - (tat - now) && now <= tat
    ensures Decide(c, tat, now).allowed == Take(c, b, now).1
    ensures Decide(c, tat, now).remaining == Take(c, b, now).2
    ensures var tat' := if Take(c, b, now).1 then tat + c.period else tat;
            Take(c, b, now).0 == Bucket(c.burst * c.period - (tat' - now), now)
  {
    MulSub(c.burst, 1, c.period);
    WithinIsFrom(c.burst * c.period, c.period, c.burst, tat, now);
  }

  /** Forgetting the keys at or behind `now` changes no TAT that a check from `now` on works with. */
  lemma EffectiveAfterPrune(tat: map<Key, int>, now: int, key: Key, t: int)
    requires now <= t
    ensures Effective(Pruned(tat, now), key, t) == Effective(tat, key, t)
  {
  }

  lemma CheckMatches(c: Config, l: Limiter, bs: map<Key, Bucket>, q: Request)
    requires c.Valid() && Matches(c, l.tat, bs, q.now)
    ensures var (l', d) := CheckStep(c, l, q);
            var (b, ok, left) := Take(c, BucketOf(c, bs, q.key, q.now), q.now);
            && d.allowed == ok && d.remaining == left
            && b.at == q.now && Matches(c, l'.tat, bs[q.key := b], q.now)
  {
    var tat := Effective(l.tat, q.key, q.now);
    var (l', d) := CheckStep(c, l, q);
    var (b, ok, left) := Take(c, BucketOf(c, bs, q.key, q.now), q.now);
    DecideIsTake(c, tat, q.now, BucketOf(c, bs, q.key, q.now));
    var stored := if d.allowed then l.tat[q.key := tat + c.period] else l.tat;
    forall key: Key
      ensures Refilled(c, BucketOf(c, bs[q.key := b], key, q.now), q.now)
           == c.burst * c.period - (Effective(l'.tat, key, q.now) - q.now)
    {
      assert Refilled(c, BucketOf(c, bs, key, q.now), q.now)
          == c.burst * c.period - (Effective(l.tat, key, q.now) - q.now);
      EffectiveAfterPrune(stored, q.now, key, q.now);
      assert Effective(l'.tat, key, q.now) == Effective(stored, key, q.now);
    }
  }

  ghost predicate BucketsBy(bs: map<Key, Bucket>, now: int) {
    forall key | key in bs :: bs[key].at <= now
  }

  /** On a clock that never goes back, the limiter and the buckets decide every request alike. */
  lemma {:induction false} RunMatches(c: Config, l: Limiter, bs: map<Key, Bucket>, from: int, qs: seq<Request>, i: nat)
    requires c.Valid() && Matches(c, l.tat, bs, from) && BucketsBy(bs, from) && Monotone(from, qs) && i < |qs|
    ensures Decisions(c, l, qs)[i].allowed == Verdicts(c, bs, qs)[i].allowed
    ensures Decisions(c, l, qs)[i].remaining == Verdicts(c, bs, qs)[i].remaining
    decreases i
  {
    var q := qs[0];
    MatchesLater(c, l.tat, bs, from, q.now);
    CheckMatches(c, l, bs, q);
    if i > 0 {
      var (b, ok, left) := Take(c, BucketOf(c, bs, q.key, q.now), q.now);
      RunMatches(c, CheckStep(c, l, q).0, bs[q.key := b], q.now, qs[1..], i - 1);
    }
  }

  const FRESH: Limiter := Limiter(map[], PRUNE_THRESHOLD)

  /** A fresh limiter decides every request exactly as independent exact token buckets do. */
  lemma LimiterIsTokenBuckets(c: Config, from: int, qs: seq<Request>, i: nat)
    requires c.Valid() && Monotone(from, qs) && i < |qs|
    ensures Decisions(c, FRESH, qs)[i].allowed == Verdicts(c, map[], qs)[i].allowed
    ensures Decisions(c, FRESH, qs)[i].remaining == Verdicts(c, map[], qs)[i].remaining
  {
    RunMatches(c, FRESH, map[], from, qs, i);
  }

  // --- No window is overspent --------------------------------------------------

  ghost predicate CountedIn(q: Request, key: Key, a: int, b: int) {
    q.key == key && a <= q.now <= b
  }

  /** Requests of `key` admitted at instants from `a` to `b`. */
  ghost function AdmittedIn(c: Config, l: Limiter, qs: seq<Request>, key: Key, a: int, b: int): nat
    requires c.Valid()
    decreases |qs|
  {
    if qs == [] then 0 else
      var (l', d) := CheckStep(c, l, qs[0]);
      (if CountedIn(qs[0], key, a, b) && d.allowed then 1 else 0) + AdmittedIn(c, l', qs[1..], key, a, b)
  }

  /** A check at `now` moves the effective TAT of its own key by one period, and no other. */
  lemma EffectiveAfterCheck(c: Config, l: Limiter, q: Request, key: Key)
    requires c.Valid()
    ensures var (l', d) := CheckStep(c, l, q);
            Effective(l'.tat, key, q.now) ==
              Effective(l.tat, key, q.now) + (if key == q.key && d.allowed then c.period else 0)
  {
    var stored := l.tat[q.key := Effective(l.tat, q.key, q.now) + c.period];
    EffectiveAfterPrune(stored, q.now, key, q.now);
  }

  lemma EffectiveLater(tat: map<Key, int>, key: Key, from: int, now: int)
    requires from <= now
    ensures Effective(tat, key, now) == Max(Effective(tat, key, from), now)
  {
  }

  /** An admission leaves the TAT at most a full burst ahead of the clock. */
  lemma AdmissionStaysInBurst(c: Config, l: Limiter, q: Request)
    requires c.Valid() && CheckStep(c, l, q).1.allowed
    ensures Effective(l.tat, q.key, q.now) + c.period <= q.now + c.burst * c.period
  {
    assert c.Tolerance() == c.burst * c.period - c.period;
  }

  /** One admission spends one period of the window's credit. */
  lemma CreditStep(n: nat, p: int, full: int, e0: int, e1: int, a: int, b: int, now: int)
    requires a <= now <= b && e1 == Max(e0, now) && e1 + p <= now + full
    requires n == 0 || n * p + Max(e1 + p, a) <= b + full
    ensures (n + 1) * p + Max(e0, a) <= b + full
  {
    MulSucc(n, p);
    if n == 0 {
      assert n * p == 0;
    }
  }

  lemma {:induction false} CreditBoundsWindow(c: Config, l: Limiter, from: int, qs: seq<Request>, key: Key,
                                              a: int, b: int)
    requires c.Valid() && Monotone(from, qs)
    ensures var n := AdmittedIn(c, l, qs, key, a, b);
            n == 0 || n * c.period + Max(Effective(l.tat, key, from), a) <= b + c.burst * c.period
    decreases |qs|
  {
    if qs != [] {
      var q := qs[0];
      var (l', d) := CheckStep(c, l, q);
      CreditBoundsWindow(c, l', q.now, qs[1..], key, a, b);
      EffectiveAfterCheck(c, l, q, key);
      EffectiveLater(l.tat, key, from, q.now);
      var n := AdmittedIn(c, l', qs[1..], key, a, b);
      var e0, e1 := Effective(l.tat, key, from), Effective(l.tat, key, q.now);
      if CountedIn(q, key, a, b) && d.allowed {
        assert AdmittedIn(c, l, qs, key, a, b) == n + 1;
        AdmissionStaysInBurst(c, l, q);
        CreditStep(n, c.period, c.burst * c.period, e0, e1, a, b, q.now);
      } else {
        assert AdmittedIn(c, l, qs, key, a, b) == n;
      }
    }
  }

  /** Any closed window of length `T` admits at most `burst + floor(T / period)` requests per key. */
  lemma WindowBound(c: Config, from: int, qs: seq<Request>, key: Key, a: int, T: nat)
    requires c.Valid() && Monotone(from, qs)
    ensures AdmittedIn(c, FRESH, qs, key, a, a + T) <= c.burst + T / c.period
  {
    CreditBoundsWindow(c, FRESH, from, qs, key, a, a + T);
    var n := AdmittedIn(c, FRESH, qs, key, a, a + T);
    if n > 0 {
      MulSub(n, c.burst, c.period);
      DivIsFloor(T, c.period, n - c.burst);
    } else {
      DivIsFloor(T, c.period, 0);
    }
  }

  /** The greedy client: as many requests as the burst allows, then one per period. */
  function Greedy(c: Config, key: Key, a: int, i: nat, n: nat): seq<Request>
    requires i <= n
    decreases n - i
  {
    if i == n then [] else [Request(key, a + Max(0, i - c.burst + 1) * c.period)] + Greedy(c, key, a, i + 1, n)
  }

  /** The i-th greedy request finds the TAT no further ahead than the tolerance. */
  lemma GreedyConforms(c: Config, a: int, i: nat, n: nat)
    requires c.Valid() && i < n
    ensures var k := Max(0, i - c.burst + 1);
            && 0 <= Max(0, i - c.burst) * c.period <= k * c.period <= Max(0, n - c.burst) * c.period
            && k * c.period <= i * c.period
            && i * c.period - k * c.period <= c.Tolerance()
  {
    var k := Max(0, i - c.burst + 1);
    MulMono(0, Max(0, i - c.burst), c.period);
    MulMono(Max(0, i - c.burst), k, c.period);
    MulMono(k, Max(0, n - c.burst), c.period);
    MulMono(k, i, c.period);
    MulSub(i, k, c.period);
    MulMono(i - k, c.burst - 1, c.period);
  }

  /** One greedy request is admitted, and moves the TAT by one period. */
  lemma GreedyStep(c: Config, tat: map<Key, int>, key: Key, a: int, i: nat, n: nat)
    requires c.Valid() && i < n && tat == if i == 0 then map[] else map[key := a + i * c.period]
    ensures var q := Request(key, a + Max(0, i - c.burst + 1) * c.period);
            && CheckStep(c, Limiter(tat, PRUNE_THRESHOLD), q).1.allowed
            && CheckStep(c, Limiter(tat, PRUNE_THRESHOLD), q).0
               == Limiter(map[key := a + (i + 1) * c.period], PRUNE_THRESHOLD)
  {
    GreedyConforms(c, a, i, n);
    var eff := a + i * c.period;
    var q := Request(key, a + Max(0, i - c.burst + 1) * c.period);
    assert Effective(tat, key, q.now) == eff;
    MulSucc(i, c.period);
    var stored := map[key := eff + c.period];
    assert tat[key := eff + c.period] == stored && |stored| == 1;
  }

  lemma {:induction false} GreedyIsAdmitted(c: Config, tat: map<Key, int>, key: Key, a: int, b: int,
                                            i: nat, n: nat, from: int)
    requires c.Valid() && i <= n
    requires tat == if i == 0 then map[] else map[key := a + i * c.period]
    requires from == a + Max(0, i - c.burst) * c.period
    requires a + Max(0, n - c.burst) * c.period <= b
    ensures Monotone(from, Greedy(c, key, a, i, n))
    ensures AdmittedIn(c, Limiter(tat, PRUNE_THRESHOLD), Greedy(c, key, a, i, n), key, a, b) == n - i
    decreases n - i
  {
    if i < n {
      GreedyConforms(c, a, i, n);
      var k := Max(0, i - c.burst + 1);
      GreedyStep(c, tat, key, a, i, n);
      GreedyIsAdmitted(c, map[key := a + (i + 1) * c.period], key, a, b, i + 1, n, a + k * c.period);
      assert Greedy(c, key, a, i, n)[1..] == Greedy(c, key, a, i + 1, n);
    }
  }

  /** The bound is met by some run, for every window. */
  lemma WindowBoundIsTight(c: Config, key: Key, a: int, T: nat)
    requires c.Valid()
    ensures exists qs :: Monotone(a, qs) && AdmittedIn(c, FRESH, qs, key, a, a + T) == c.burst + T / c.period
  {
    var n := c.burst + T / c.period;
    DivIsFloor(T, c.period, T / c.period);
    DivIsFloor(T, c.period, 0);
    GreedyIsAdmitted(c, map[], key, a, a + T, 0, n, a);
    var qs := Greedy(c, key, a, 0, n);
    assert Monotone(a, qs);
  }

  // --- Each key stands alone, pruned or not ------------------------------------

  /** The decisions of a limiter that holds one number and serves one key. */
  function Alone(c: Config, tat: int, times: seq<int>): (ds: seq<Decision>)
    requires c.Valid()
    ensures |ds| == |times|
    decreases |times|
  {
    if times == [] then [] else
      var eff := Max(tat, times[0]);
      var d := Decide(c, eff, times[0]);
      [d] + Alone(c, if d.allowed then eff + c.period else eff, times[1..])
  }

  function TimesOf(qs: seq<Request>, key: Key): seq<int>
    decreases |qs|
  {
    if qs == [] then [] else (if qs[0].key == key then [qs[0].now] else []) + TimesOf(qs[1..], key)
  }

  function DecisionsFor(c: Config, l: Limiter, qs: seq<Request>, key: Key): seq<Decision>
    requires c.Valid()
    decreases |qs|
  {
    if qs == [] then [] else
      (if qs[0].key == key then [CheckStep(c, l, qs[0]).1] else [])
      + DecisionsFor(c, CheckStep(c, l, qs[0]).0, qs[1..], key)
  }

  /** Raising the stored TAT to a moment before the next request changes nothing. */
  lemma AloneForgetsThePast(c: Config, tat: int, from: int, times: seq<int>)
    requires c.Valid() && (times != [] ==> from <= times[0])
    ensures Alone(c, Max(tat, from), times) == Alone(c, tat, times)
  {
  }

  lemma {:induction false} TimesFollowTheClock(from: int, qs: seq<Request>, key: Key)
    requires Monotone(from, qs)
    ensures TimesOf(qs, key) != [] ==> from <= TimesOf(qs, key)[0]
    decreases |qs|
  {
    if qs != [] {
      TimesFollowTheClock(qs[0].now, qs[1..], key);
    }
  }

  /**
   * The decisions for one key, out of any run of the pruning limiter over any keys, are those of a
   * limiter that holds that key's one number, never forgets it, and sees that key's requests only.
   */
  lemma {:induction false} KeysStandAlone(c: Config, l: Limiter, from: int, qs: seq<Request>, key: Key)
    requires c.Valid() && Monotone(from, qs)
    ensures DecisionsFor(c, l, qs, key) == Alone(c, Effective(l.tat, key, from), TimesOf(qs, key))
    decreases |qs|
  {
    if qs != [] {
      var q := qs[0];
      var (l', d) := CheckStep(c, l, q);
      KeysStandAlone(c, l', q.now, qs[1..], key);
      EffectiveAfterCheck(c, l, q, key);
      EffectiveLater(l.tat, key, from, q.now);
      if q.key == key {
        assert TimesOf(qs, key)[1..] == TimesOf(qs[1..], key);
      } else {
        TimesFollowTheClock(q.now, qs[1..], key);
        assert TimesOf(qs, key) == TimesOf(qs[1..], key);
        AloneForgetsThePast(c, Effective(l.tat, key, from), q.now, TimesOf(qs, key));
      }
    }
  }

  /** One check of a limiter that never forgets. */
  function RememberStep(c: Config, tat: map<Key, int>, q: Request): (map<Key, int>, Decision)
    requires c.Valid()
  {
    var eff := Effective(tat, q.key, q.now);
    var d := Decide(c, eff, q.now);
    (if d.allowed then tat[q.key := eff + c.period] else tat, d)
  }

  function Remembering(c: Config, tat: map<Key, int>, qs: seq<Request>): (ds: seq<Decision>)
    requires c.Valid()
    ensures |ds| == |qs|
    decreases |qs|
  {
    if qs == [] then [] else [RememberStep(c, tat, qs[0]).1] + Remembering(c, RememberStep(c, tat, qs[0]).0, qs[1..])
  }

  ghost predicate SameFrom(tat: map<Key, int>, all: map<Key, int>, now: int) {
    forall key: Key :: Effective(tat, key, now) == Effective(all, key, now)
  }

  lemma SameLater(tat: map<Key, int>, all: map<Key, int>, from: int, now: int)
    requires SameFrom(tat, all, from) && from <= now
    ensures SameFrom(tat, all, now)
  {
    forall key: Key
      ensures Effective(tat, key, now) == Effective(all, key, now)
    {
      assert Effective(tat, key, from) == Effective(all, key, from);
      EffectiveLater(tat, key, from, now);
      EffectiveLater(all, key, from, now);
    }
  }

  lemma SameAfterCheck(c: Config, l: Limiter, all: map<Key, int>, q: Request)
    requires c.Valid() && SameFrom(l.tat, all, q.now)
    ensures CheckStep(c, l, q).1 == RememberStep(c, all, q).1
    ensures SameFrom(CheckStep(c, l, q).0.tat, RememberStep(c, all, q).0, q.now)
  {
    assert Effective(l.tat, q.key, q.now) == Effective(all, q.key, q.now);
    forall key: Key
      ensures Effective(CheckStep(c, l, q).0.tat, key, q.now) == Effective(RememberStep(c, all, q).0, key, q.now)
    {
      assert Effective(l.tat, key, q.now) == Effective(all, key, q.now);
      EffectiveAfterCheck(c, l, q, key);
    }
  }

  /** Pruning is unobservable: every decision is the one of a limiter that never forgets. */
  lemma {:induction false} PruningIsUnobservable(c: Config, l: Limiter, all: map<Key, int>, from: int, qs: seq<Request>)
    requires c.Valid() && Monotone(from, qs) && SameFrom(l.tat, all, from)
    ensures Decisions(c, l, qs) == Remembering(c, all, qs)
    decreases |qs|
  {
    if qs != [] {
      SameLater(l.tat, all, from, qs[0].now);
      SameAfterCheck(c, l, all, qs[0]);
      PruningIsUnobservable(c, CheckStep(c, l, qs[0]).0, RememberStep(c, all, qs[0]).0, qs[0].now, qs[1..]);
    }
  }

  // --- When forgetting shows ---------------------------------------------------

  /** A TAT ahead of the clock always leaves less than a full burst: it is refused, or has fewer requests left. */
  lemma AheadIsTold(tolerance: int, period: int, limit: int, tat: int, now: int)
    requires period >= 1 && tolerance >= 0 && now < tat && tolerance % period == 0
    ensures DecideWithin(tolerance, period, limit, now, now) != DecideWithin(tolerance, period, limit, tat, now)
  {
    var n := tolerance / period;
    DivShift(tolerance, period);
    DivShift(tolerance - (tat - now), period);
    DivIsFloor(tolerance, period, 0);
    DivIsFloor(tolerance - (tat - now), period, n);
    if tolerance >= tat - now {
      DivIsFloor(tolerance, period, 1);
    }
  }

  lemma ToleranceIsWhole(c: Config)
    requires c.Valid()
    ensures c.Tolerance() >= 0 && c.Tolerance() % c.period == 0
  {
    MulMono(0, c.burst - 1, c.period);
    DivUnique(c.Tolerance(), c.period, c.burst - 1, 0);
  }

  /**
   * What a client is told at time `t` after the keys at or behind `now` were forgotten differs from
   * what it would have been told if and only if the clock has gone back to before a forgotten TAT.
   */
  lemma PruneNoticedExactly(c: Config, tat: map<Key, int>, now: int, key: Key, t: int)
    requires c.Valid()
    ensures Decide(c, Effective(Pruned(tat, now), key, t), t) == Decide(c, Effective(tat, key, t), t)
            <==> !(key in tat && t < tat[key] <= now)
  {
    if key in tat && t < tat[key] <= now {
      ToleranceIsWhole(c);
      AheadIsTold(c.Tolerance(), c.period, c.burst, tat[key], t);
    }
  }

  /** The keys of a crowd, told apart by their length. */
  function KeyNo(i: nat): Key {
    Key(seq(i, _ => 'k'))
  }

  /** Requests of the keys `i` to `n` at instant 0, and one more request. */
  function Crowd(i: nat, n: nat, last: Request): seq<Request>
    requires i <= n
    decreases n - i
  {
    if i == n then [last] else [Request(KeyNo(i), 0)] + Crowd(i + 1, n, last)
  }

  /** The dictionary after the first `n` of the crowd. */
  function Seen(period: int, n: nat): map<Key, int> {
    if n == 0 then map[] else Seen(period, n - 1)[KeyNo(n - 1) := period]
  }

  lemma {:induction false} SeenHolds(period: int, n: nat)
    ensures |Seen(period, n)| == n
    ensures forall key | key in Seen(period, n) :: |key.token| < n && Seen(period, n)[key] == period
    ensures forall i: nat | i < n :: KeyNo(i) in Seen(period, n)
  {
    if n > 0 {
      SeenHolds(period, n - 1);
      assert KeyNo(n - 1) !in Seen(period, n - 1);
    }
  }

  function RememberedAfter(c: Config, tat: map<Key, int>, qs: seq<Request>): map<Key, int>
    requires c.Valid()
    decreases |qs|
  {
    if qs == [] then tat else RememberedAfter(c, RememberStep(c, tat, qs[0]).0, qs[1..])
  }

  lemma CrowdStep(c: Config, i: nat)
    requires c.Valid() && i < PRUNE_THRESHOLD
    ensures CheckStep(c, Limiter(Seen(c.period, i), PRUNE_THRESHOLD), Request(KeyNo(i), 0)).0
            == Limiter(Seen(c.period, i + 1), PRUNE_THRESHOLD)
    ensures RememberStep(c, Seen(c.period, i), Request(KeyNo(i), 0)).0 == Seen(c.period, i + 1)
  {
    SeenHolds(c.period, i);
    SeenHolds(c.period, i + 1);
    ToleranceIsWhole(c);
    assert KeyNo(i) !in Seen(c.period, i);
    assert Effective(Seen(c.period, i), KeyNo(i), 0) == 0;
  }

  /** A crowd that fits the threshold is remembered whole, up to its last request. */
  lemma {:induction false} CrowdIsSeen(c: Config, i: nat, n: nat, last: Request)
    requires c.Valid() && i <= n <= PRUNE_THRESHOLD
    ensures After(c, Limiter(Seen(c.period, i), PRUNE_THRESHOLD), Crowd(i, n, last))
            == CheckStep(c, Limiter(Seen(c.period, n), PRUNE_THRESHOLD), last).0
    decreases n - i
  {
    var l := Limiter(Seen(c.period, i), PRUNE_THRESHOLD);
    if i < n {
      CrowdStep(c, i);
      CrowdIsSeen(c, i + 1, n, last);
      AfterFirst(c, l, Request(KeyNo(i), 0), Crowd(i + 1, n, last));
    } else {
      AfterFirst(c, l, last, []);
    }
  }

  lemma AfterFirst(c: Config, l: Limiter, q: Request, qs: seq<Request>)
    requires c.Valid()
    ensures After(c, l, [q] + qs) == After(c, CheckStep(c, l, q).0, qs)
  {
    assert ([q] + qs)[1..] == qs;
  }

  /** So it is by a limiter that never forgets. */
  lemma {:induction false} CrowdIsRemembered(c: Config, i: nat, n: nat, last: Request)
    requires c.Valid() && i <= n <= PRUNE_THRESHOLD
    ensures RememberedAfter(c, Seen(c.period, i), Crowd(i, n, last)) == RememberStep(c, Seen(c.period, n), last).0
    decreases n - i
  {
    var tat := Seen(c.period, i);
    if i < n {
      CrowdStep(c, i);
      CrowdIsRemembered(c, i + 1, n, last);
      RememberedFirst(c, tat, Request(KeyNo(i), 0), Crowd(i + 1, n, last));
    } else {
      RememberedFirst(c, tat, last, []);
    }
  }

  lemma RememberedFirst(c: Config, tat: map<Key, int>, q: Request, qs: seq<Request>)
    requires c.Valid()
    ensures RememberedAfter(c, tat, [q] + qs) == RememberedAfter(c, RememberStep(c, tat, q).0, qs)
  {
    assert ([q] + qs)[1..] == qs;
  }

  lemma {:induction false} CrowdIsMonotone(i: nat, n: nat, last: Request)
    requires i <= n && last.now >= 0
    ensures Monotone(0, Crowd(i, n, last))
    decreases n - i
  {
    if i < n {
      CrowdIsMonotone(i + 1, n, last);
      assert Crowd(i, n, last)[1..] == Crowd(i + 1, n, last);
    }
  }

  /** The request that overfills the dictionary prunes everybody but its own key. */
  lemma CrowdIsForgotten(c: Config, n: nat)
    requires c.Valid() && n == PRUNE_THRESHOLD
    ensures var last := Request(KeyNo(n), c.period);
            var stored := Seen(c.period, n)[KeyNo(n) := 2 * c.period];
            && CheckStep(c, Limiter(Seen(c.period, n), PRUNE_THRESHOLD), last).0.tat == Pruned(stored, c.period)
            && RememberStep(c, Seen(c.period, n), last).0 == stored
            && KeyNo(0) in stored && stored[KeyNo(0)] == c.period
  {
    SeenHolds(c.period, n);
    ToleranceIsWhole(c);
    assert KeyNo(n) !in Seen(c.period, n) && KeyNo(0) in Seen(c.period, n);
  }

  /** After the requests, the two limiters answer the next one differently. */
  ghost predicate ToldApart(c: Config, qs: seq<Request>, q: Request)
    requires c.Valid()
  {
    CheckStep(c, After(c, FRESH, qs), q).1 != RememberStep(c, RememberedAfter(c, map[], qs), q).1
  }

  /** For every configuration a run from a new limiter, followed by a step back of the clock, makes a prune show. */
  lemma PruningShowsOnABackwardClock(c: Config)
    requires c.Valid()
    ensures exists qs, q :: Monotone(0, qs) && ToldApart(c, qs, q)
  {
    var n := PRUNE_THRESHOLD;
    var last := Request(KeyNo(n), c.period);
    var qs := Crowd(0, n, last);
    var stored := Seen(c.period, n)[KeyNo(n) := 2 * c.period];
    CrowdIsMonotone(0, n, last);
    CrowdIsSeen(c, 0, n, last);
    CrowdIsRemembered(c, 0, n, last);
    CrowdIsForgotten(c, n);
    PruneNoticedExactly(c, stored, c.period, KeyNo(0), 0);
    assert ToldApart(c, qs, Request(KeyNo(0), 0));
  }

  // --- Pruning is cheap --------------------------------------------------------

  /** Entries looked at by the prune of this check, if it prunes. */
  function Scanned(c: Config, l: Limiter, q: Request): nat
    requires c.Valid()
  {
    var stored := l.tat[q.key := Effective(l.tat, q.key, q.now) + c.period];
    if CheckStep(c, l, q).1.allowed && |stored| > l.pruneAt then |stored| else 0
  }

  function TotalScanned(c: Config, l: Limiter, qs: seq<Request>): nat
    requires c.Valid()
    decreases |qs|
  {
    if qs == [] then 0 else Scanned(c, l, qs[0]) + TotalScanned(c, CheckStep(c, l, qs[0]).0, qs[1..])
  }

  function TotalAdmitted(c: Config, l: Limiter, qs: seq<Request>): nat
    requires c.Valid()
    decreases |qs|
  {
    if qs == [] then 0 else
      (if CheckStep(c, l, qs[0]).1.allowed then 1 else 0) + TotalAdmitted(c, CheckStep(c, l, qs[0]).0, qs[1..])
  }

  /** A check keeps the dictionary no larger than its threshold, and the threshold at least the constant. */
  lemma CheckKeepsSize(c: Config, l: Limiter, q: Request)
    requires c.Valid() && |l.tat| <= l.pruneAt && PRUNE_THRESHOLD <= l.pruneAt
    ensures var l' := CheckStep(c, l, q).0; |l'.tat| <= l'.pruneAt && PRUNE_THRESHOLD <= l'.pruneAt
  {
  }

  lemma {:induction false} SizeStaysBounded(c: Config, l: Limiter, qs: seq<Request>)
    requires c.Valid() && |l.tat| <= l.pruneAt && PRUNE_THRESHOLD <= l.pruneAt
    ensures |After(c, l, qs).tat| <= After(c, l, qs).pruneAt
    decreases |qs|
  {
    if qs != [] {
      CheckKeepsSize(c, l, qs[0]);
      SizeStaysBounded(c, CheckStep(c, l, qs[0]).0, qs[1..]);
    }
  }

  lemma {:induction false} PruningIsAmortised(c: Config, l: Limiter, qs: seq<Request>)
    requires c.Valid() && |l.tat| <= l.pruneAt && PRUNE_THRESHOLD <= l.pruneAt
    ensures TotalScanned(c, l, qs) <= 2 * TotalAdmitted(c, l, qs) + Max(0, 2 * |l.tat| - l.pruneAt)
    decreases |qs|
  {
    if qs != [] {
      CheckKeepsSize(c, l, qs[0]);
      PruningIsAmortised(c, CheckStep(c, l, qs[0]).0, qs[1..]);
    }
  }

  /** Over any run the prunes look at no more than two entries per admitted check. */
  lemma ScansAtMostTwicePerAdmission(c: Config, qs: seq<Request>)
    requires c.Valid()
    ensures TotalScanned(c, FRESH, qs) <= 2 * TotalAdmitted(c, FRESH, qs)
    ensures |After(c, FRESH, qs).tat| <= After(c, FRESH, qs).pruneAt
  {
    PruningIsAmortised(c, FRESH, qs);
    SizeStaysBounded(c, FRESH, qs);
  }

  // --- The hints are exact -----------------------------------------------------

  lemma {:induction false} AloneAtOneInstant(c: Config, tat: int, now: int, times: seq<int>, j: nat)
    requires c.Valid() && now <= tat && j < |times| && forall i | 0 <= i < |times| :: times[i] == now
    ensures Alone(c, tat, times)[j].allowed <==> tat + j * c.period - now <= c.Tolerance()
    decreases j
  {
    if j > 0 {
      var next := if Decide(c, tat, now).allowed then tat + c.period else tat;
      AloneAtOneInstant(c, next, now, times[1..], j - 1);
      assert j * c.period == (j - 1) * c.period + c.period;
      assert (j - 1) * c.period >= 0;
    }
  }

  lemma {:induction false} TimesAtOneInstant(qs: seq<Request>, key: Key, now: int)
    requires forall i | 0 <= i < |qs| :: qs[i].now == now
    ensures Monotone(now, qs)
    ensures forall i | 0 <= i < |TimesOf(qs, key)| :: TimesOf(qs, key)[i] == now
    decreases |qs|
  {
    if qs != [] {
      TimesAtOneInstant(qs[1..], key, now);
    }
  }

  /**
   * After an admission, whatever else happens at that instant, exactly `remaining` further
   * requests of the key are admitted and every one after them is denied.
   */
  lemma RemainingIsExact(c: Config, l: Limiter, q: Request, qs: seq<Request>, j: nat)
    requires c.Valid() && CheckStep(c, l, q).1.allowed
    requires forall i | 0 <= i < |qs| :: qs[i].now == q.now
    requires j < |DecisionsFor(c, CheckStep(c, l, q).0, qs, q.key)|
    ensures DecisionsFor(c, CheckStep(c, l, q).0, qs, q.key)[j].allowed <==> j < CheckStep(c, l, q).1.remaining
  {
    var (l', d) := CheckStep(c, l, q);
    TimesAtOneInstant(qs, q.key, q.now);
    KeysStandAlone(c, l', q.now, qs, q.key);
    EffectiveAfterCheck(c, l, q, q.key);
    var tat := Effective(l'.tat, q.key, q.now);
    AloneAtOneInstant(c, tat, q.now, TimesOf(qs, q.key), j);
    DivIsFloor(q.now + c.Tolerance() - tat, c.period, j);
  }

  lemma {:induction false} AloneAfterDenials(c: Config, tat: int, times: seq<int>, j: nat)
    requires c.Valid() && j < |times|
    requires forall i | 0 <= i < j :: !Alone(c, tat, times)[i].allowed
    ensures Alone(c, tat, times)[j].allowed <==> times[j] >= tat - c.Tolerance()
    decreases j
  {
    assert c.Tolerance() >= 0;
    if j > 0 {
      var ds := Alone(c, tat, times);
      assert !ds[0].allowed;
      var rest := Alone(c, Max(tat, times[0]), times[1..]);
      assert ds[1..] == rest;
      assert forall i | 0 <= i < j - 1 :: rest[i] == ds[i + 1];
      AloneAfterDenials(c, Max(tat, times[0]), times[1..], j - 1);
    }
  }

  /** One decision per request of the key. */
  lemma {:induction false} DecisionsForEach(c: Config, l: Limiter, qs: seq<Request>, key: Key)
    requires c.Valid()
    ensures |DecisionsFor(c, l, qs, key)| == |TimesOf(qs, key)|
    decreases |qs|
  {
    if qs != [] {
      DecisionsForEach(c, CheckStep(c, l, qs[0]).0, qs[1..], key);
    }
  }

  /** Among the first decisions for the key, none before `j` is an admission. */
  ghost predicate NotYetAdmitted(c: Config, l: Limiter, qs: seq<Request>, key: Key, j: nat)
    requires c.Valid()
  {
    j < |DecisionsFor(c, l, qs, key)| && forall i | 0 <= i < j :: !DecisionsFor(c, l, qs, key)[i].allowed
  }

  /**
   * After a denial, as long as the key is not admitted, a later request of the key is admitted
   * if and only if it comes at least `retryAfter` later.
   */
  lemma RetryAfterIsExact(c: Config, l: Limiter, q: Request, qs: seq<Request>, j: nat)
    requires c.Valid() && !CheckStep(c, l, q).1.allowed && Monotone(q.now, qs)
    requires NotYetAdmitted(c, l, qs, q.key, j)
    ensures CheckStep(c, l, q).1.retryAfter > 0
    ensures j < |TimesOf(qs, q.key)|
    ensures DecisionsFor(c, l, qs, q.key)[j].allowed <==>
              TimesOf(qs, q.key)[j] >= q.now + CheckStep(c, l, q).1.retryAfter
  {
    DecisionsForEach(c, l, qs, q.key);
    KeysStandAlone(c, l, q.now, qs, q.key);
    AloneAfterDenials(c, Effective(l.tat, q.key, q.now), TimesOf(qs, q.key), j);
  }

  /** The `retry-after` header: whole seconds, rounded up, and never zero. */
  function RetryHeader(d: Decision): Option<int> {
    if d.allowed then None
    else Some(Max(1, (d.retryAfter + NANOS_PER_SECOND - 1) / NANOS_PER_SECOND))
  }

  /** The header is the least number of whole seconds that covers the wait. */
  lemma HeaderRoundsUp(d: Decision)
    requires !d.allowed && d.retryAfter > 0
    ensures var h := RetryHeader(d).value; (h - 1) * NANOS_PER_SECOND < d.retryAfter <= h * NANOS_PER_SECOND
  {
  }

  /**
   * After a denial, as long as the key is not admitted, a request that waited the header's seconds
   * is admitted and one that waited a second less, or not so long, is denied.
   */
  lemma HeaderSecondsSuffice(c: Config, l: Limiter, q: Request, qs: seq<Request>, j: nat)
    requires c.Valid() && !CheckStep(c, l, q).1.allowed && Monotone(q.now, qs)
    requires NotYetAdmitted(c, l, qs, q.key, j)
    ensures j < |TimesOf(qs, q.key)| && RetryHeader(CheckStep(c, l, q).1).Some?
    ensures var h := RetryHeader(CheckStep(c, l, q).1).value;
            var (d, t) := (DecisionsFor(c, l, qs, q.key)[j], TimesOf(qs, q.key)[j]);
            && (t >= q.now + h * NANOS_PER_SECOND ==> d.allowed)
            && (t <= q.now + (h - 1) * NANOS_PER_SECOND ==> !d.allowed)
  {
    RetryAfterIsExact(c, l, q, qs, j);
    HeaderRoundsUp(CheckStep(c, l, q).1);
  }
}
