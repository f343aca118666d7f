/**
 The per-client rate limiter over token buckets. Time is in nanoseconds. A bucket holds credit in
 nanoseconds of refill, so a token is worth one period and accruing is exact; the rounding of the
 floating-point token count is not part of this model. Getting a bucket and taking a token is one step.
 */
module RateLimit {
  import opened Options

  const MINUTE := 60_000_000_000

  datatype Config = Config(requestsPerMinute: int, burst: int, cleanupInterval: int, whitelist: seq<string>)

  datatype Bucket = Bucket(credit: int, last: int)

  datatype Limiter = Limiter(buckets: map<string, Bucket>, lastClean: int)

  datatype Event = Request(client: string, now: int) | Cleanup(now: int)

  /** time.Minute / time.Duration(n): Go's division truncates toward zero. */
  function Period(c: Config): int
    requires c.requestsPerMinute != 0
  {
    if c.requestsPerMinute > 0 then MINUTE / c.requestsPerMinute else -(MINUTE / -c.requestsPerMinute)
  }

  /** What the bucket arithmetic needs of the configuration: the refill period and the credit of a full bucket. */
  datatype Rate = Rate(period: int, full: int, cleanupInterval: int)

  function RateOf(c: Config): Rate
    requires c.requestsPerMinute != 0
  {
    Rate(Period(c), c.burst * Period(c), c.cleanupInterval)
  }

  /** The limit is infinite when the period is not positive; such a limiter never refuses. */
  predicate Unlimited(r: Rate) {
    r.period <= 0
  }

  function Level(r: Rate, b: Bucket, now: int): int {
    var elapsed := if now < b.last then 0 else now - b.last;
    if b.credit + elapsed < r.full then b.credit + elapsed else r.full
  }

  function BucketOf(r: Rate, l: Limiter, client: string, now: int): Bucket {
    if client in l.buckets then l.buckets[client] else Bucket(r.full, now)
  }

  function Allows(r: Rate, b: Bucket, now: int): bool {
    Unlimited(r) || Level(r, b, now) >= r.period
  }

  /** A refused request leaves the bucket as it was. */
  function Taken(r: Rate, b: Bucket, now: int): Bucket {
    if !Unlimited(r) && Allows(r, b, now) then Bucket(Level(r, b, now) - r.period, now) else b
  }

  function Serve(r: Rate, l: Limiter, client: string, now: int): Limiter {
    l.(buckets := l.buckets[client := Taken(r, BucketOf(r, l, client, now), now)])
  }

  predicate Idle(r: Rate, l: Limiter, b: Bucket, now: int) {
    Level(r, b, now) >= r.full && now - l.lastClean > r.cleanupInterval
  }

  function Clean(r: Rate, l: Limiter, now: int): Limiter {
    Limiter(map k | k in l.buckets && !Idle(r, l, l.buckets[k], now) :: l.buckets[k], now)
  }

  /** One event; a limiter that does not evict ignores cleanups. */
  function Step(r: Rate, l: Limiter, e: Event, evicts: bool): Limiter {
    match e
    case Request(client, now) => Serve(r, l, client, now)
    case Cleanup(now) => if evicts then Clean(r, l, now) else l
  }

  function Play(r: Rate, l: Limiter, run: seq<Event>, evicts: bool): Limiter
    decreases |run|
  {
    if run == [] then l else Play(r, Step(r, l, run[0], evicts), run[1..], evicts)
  }

  /** The limiter's answer to an event, if it is a request. */
  function Answer(r: Rate, l: Limiter, e: Event): seq<bool> {
    if e.Request? then [Allows(r, BucketOf(r, l, e.client, e.now), e.now)] else []
  }

  /** The answers to the requests of a run, in order. */
  function Decisions(r: Rate, l: Limiter, run: seq<Event>, evicts: bool): seq<bool>
    decreases |run|
  {
    if run == [] then []
    else Answer(r, l, run[0]) + Decisions(r, Step(r, l, run[0], evicts), run[1..], evicts)
  }

  /** The clock does not run backwards. */
  ghost predicate Timed(run: seq<Event>, from: int) {
    run == [] || (from <= run[0].now && Timed(run[1..], run[0].now))
  }

  // ----- eviction cannot be observed

  /** Now and from now on the two limiters decide alike for the client: same bucket, or both full. */
  ghost predicate AlikeFor(r: Rate, a: Limiter, b: Limiter, client: string, now: int) {
    var x, y := BucketOf(r, a, client, now), BucketOf(r, b, client, now);
    x == y || Level(r, x, now) == r.full == Level(r, y, now)
  }

  ghost predicate Alike(r: Rate, a: Limiter, b: Limiter, now: int) {
    forall client :: AlikeFor(r, a, b, client, now)
  }

  lemma AlikeLater(r: Rate, a: Limiter, b: Limiter, now: int, later: int)
    requires Alike(r, a, b, now) && now <= later
    ensures Alike(r, a, b, later)
  {
    forall client ensures AlikeFor(r, a, b, client, later) {
      assert AlikeFor(r, a, b, client, now);
    }
  }

  lemma ServeAlike(r: Rate, a: Limiter, b: Limiter, client: string, now: int)
    requires Alike(r, a, b, now)
    ensures Alike(r, Serve(r, a, client, now), Serve(r, b, client, now), now)
    ensures Allows(r, BucketOf(r, a, client, now), now) == Allows(r, BucketOf(r, b, client, now), now)
  {
    assert AlikeFor(r, a, b, client, now);
    forall k ensures AlikeFor(r, Serve(r, a, client, now), Serve(r, b, client, now), k, now) {
      assert AlikeFor(r, a, b, k, now);
    }
  }

  /** Only full buckets are deleted, and a new bucket is full. */
  lemma CleanAlike(r: Rate, a: Limiter, b: Limiter, now: int)
    requires Alike(r, a, b, now)
    ensures Alike(r, Clean(r, a, now), b, now)
  {
    forall k ensures AlikeFor(r, Clean(r, a, now), b, k, now) {
      assert AlikeFor(r, a, b, k, now);
    }
  }

  lemma StepAlike(r: Rate, a: Limiter, b: Limiter, e: Event)
    requires Alike(r, a, b, e.now)
    ensures Answer(r, a, e) == Answer(r, b, e)
    ensures Alike(r, Step(r, a, e, true), Step(r, b, e, false), e.now)
  {
    match e
    case Request(client, now) => ServeAlike(r, a, b, client, now);
    case Cleanup(now) => CleanAlike(r, a, b, now);
  }

  lemma {:induction false} AlikeDecide(r: Rate, a: Limiter, b: Limiter, run: seq<Event>, now: int)
    requires Alike(r, a, b, now) && Timed(run, now)
    ensures Decisions(r, a, run, true) == Decisions(r, b, run, false)
    decreases |run|
  {
    if run != [] {
      var e := run[0];
      AlikeLater(r, a, b, now, e.now);
      StepAlike(r, a, b, e);
      AlikeDecide(r, Step(r, a, e, true), Step(r, b, e, false), run[1..], e.now);
    }
  }

  /** On every timed sequence of requests and cleanups, the limiter answers like one that never evicts. */
  lemma EvictionInvisible(r: Rate, run: seq<Event>, start: int)
    requires Timed(run, start)
    ensures Decisions(r, Limiter(map[], start), run, true) == Decisions(r, Limiter(map[], start), run, false)
  {
    AlikeDecide(r, Limiter(map[], start), Limiter(map[], start), run, start);
  }

  // ----- how much any client gets

  /** One when the event is a request of the client and is admitted. */
  function Admission(r: Rate, l: Limiter, e: Event, client: string): nat {
    if e.Request? && e.client == client && Allows(r, BucketOf(r, l, client, e.now), e.now) then 1 else 0
  }

  /** The number of the client's admitted requests in a run. */
  function Admissions(r: Rate, l: Limiter, run: seq<Event>, client: string): nat
    decreases |run|
  {
    if run == [] then 0
    else Admission(r, l, run[0], client) + Admissions(r, Step(r, l, run[0], true), run[1..], client)
  }

  function LevelFor(r: Rate, l: Limiter, client: string, now: int): int {
    Level(r, BucketOf(r, l, client, now), now)
  }

  ghost predicate Solvent(r: Rate, l: Limiter) {
    forall k :: k in l.buckets ==> 0 <= l.buckets[k].credit
  }

  lemma StepSpends(r: Rate, l: Limiter, e: Event, client: string)
    requires !Unlimited(r) && Solvent(r, l) && 0 <= r.full
    ensures Solvent(r, Step(r, l, e, true))
    ensures LevelFor(r, Step(r, l, e, true), client, e.now)
            == LevelFor(r, l, client, e.now) - if Admission(r, l, e, client) == 1 then r.period else 0
  {
  }

  lemma LevelGrows(r: Rate, l: Limiter, client: string, from: int, to: int)
    requires from <= to
    ensures LevelFor(r, l, client, to) <= LevelFor(r, l, client, from) + (to - from)
  {
  }

  lemma Distribute(a: int, b: int, p: int)
    ensures (a + b) * p == a * p + b * p
    ensures a == 0 ==> a * p == 0
    ensures a == 1 ==> a * p == p
  {
  }

  lemma OneMoreSpent(first: nat, later: nat, period: int, before: int, after: int, gained: int)
    requires first <= 1 && after == before - (if first == 1 then period else 0)
    requires later * period <= after + gained
    ensures (first + later) * period <= before + gained
  {
    Distribute(first, later, period);
  }

  lemma {:induction false} Spending(r: Rate, l: Limiter, run: seq<Event>, client: string, from: int, to: int)
    requires !Unlimited(r) && Solvent(r, l) && 0 <= r.full
    requires from <= to && Timed(run, from) && forall e :: e in run ==> e.now <= to
    ensures Admissions(r, l, run, client) * r.period <= LevelFor(r, l, client, from) + (to - from)
    decreases |run|
  {
    if run != [] {
      var e, next := run[0], Step(r, l, run[0], true);
      assert e in run && forall x :: x in run[1..] ==> x in run;
      LevelGrows(r, l, client, from, e.now);
      StepSpends(r, l, e, client);
      Spending(r, next, run[1..], client, e.now, to);
      OneMoreSpent(Admission(r, l, e, client), Admissions(r, next, run[1..], client), r.period,
                   LevelFor(r, l, client, e.now), LevelFor(r, next, client, e.now), to - e.now);
    }
  }

  lemma {:induction false} StaysSolvent(r: Rate, l: Limiter, run: seq<Event>)
    requires !Unlimited(r) && Solvent(r, l) && 0 <= r.full
    ensures Solvent(r, Play(r, l, run, true))
    decreases |run|
  {
    if run != [] {
      StepSpends(r, l, run[0], "");
      StaysSolvent(r, Step(r, l, run[0], true), run[1..]);
    }
  }

  /** What the configuration means for limited rates: the period is a minute shared out among the requests. */
  lemma LimitedRate(c: Config)
    requires 1 <= c.requestsPerMinute <= 60_000_000_000
    ensures RateOf(c).period == 60_000_000_000 / c.requestsPerMinute > 0
    ensures RateOf(c).full == c.burst * (60_000_000_000 / c.requestsPerMinute)
    ensures !Unlimited(RateOf(c)) && RateOf(c).cleanupInterval == c.cleanupInterval
  {
  }

  /**
   After any history, in a window of length L any client gets at most burst + L / p admissions, where p is
   a minute divided by the configured requests per minute; with a burst that is not positive it gets none.
   */
  lemma WindowBound(c: Config, history: seq<Event>, window: seq<Event>, client: string, start: int, from: int, to: int)
    requires 1 <= c.requestsPerMinute <= 60_000_000_000
    requires from <= to && Timed(window, from) && forall e :: e in window ==> e.now <= to
    ensures var r := RateOf(c);
            var n := Admissions(r, Play(r, Limiter(map[], start), history, true), window, client);
            if c.burst <= 0 then n == 0 else n <= c.burst + (to - from) / (60_000_000_000 / c.requestsPerMinute)
  {
    LimitedRate(c);
    var r := RateOf(c);
    var l := Play(r, Limiter(map[], start), history, true);
    if c.burst <= 0 {
      ProductSign(-c.burst, r.period);
      NoBurstNoAdmission(r, l, window, client);
    } else {
      ProductSign(c.burst, r.period);
      StaysSolvent(r, Limiter(map[], start), history);
      Spending(r, l, window, client, from, to);
      DivideOut(Admissions(r, l, window, client), c.burst, r.period, to - from);
    }
  }

  lemma ProductSign(x: int, p: int)
    requires 0 <= x && 0 < p
    ensures 0 <= x * p && (-x) * p == -(x * p)
  {
  }

  lemma MultiplyOrdered(a: int, b: int, p: int)
    requires 0 < p
    ensures a <= b ==> a * p <= b * p
  {
    if a <= b { ProductSign(b - a, p); }
  }

  lemma DivideOut(n: int, b: int, p: int, d: int)
    requires 0 < p && 0 <= d && n * p <= b * p + d
    ensures n <= b + d / p
  {
    assert (n - b) * p == n * p - b * p;
    assert d < (d / p + 1) * p;
    MultiplyOrdered(d / p + 1, n - b, p);
  }

  lemma {:induction false} NoBurstNoAdmission(r: Rate, l: Limiter, run: seq<Event>, client: string)
    requires !Unlimited(r) && r.full <= 0
    ensures Admissions(r, l, run, client) == 0
    decreases |run|
  {
    if run != [] { NoBurstNoAdmission(r, Step(r, l, run[0], true), run[1..], client); }
  }

  // ----- a client that keeps to its rate is never refused

  predicate IsRequest(e: Event, client: string) {
    e.Request? && e.client == client
  }

  /** The number of the client's requests in a run. */
  function Requests(run: seq<Event>, client: string): nat
    decreases |run|
  {
    if run == [] then 0 else (if IsRequest(run[0], client) then 1 else 0) + Requests(run[1..], client)
  }

  /** The number of the client's requests in a run from time s to time t. */
  function RequestsIn(run: seq<Event>, client: string, s: int, t: int): nat {
    if run == [] then 0
    else
      var e := run[|run| - 1];
      RequestsIn(run[..|run| - 1], client, s, t) + if IsRequest(e, client) && s <= e.now <= t then 1 else 0
  }

  /** In every window the client makes at most as many requests as the burst and the window's length allow. */
  ghost predicate KeepsToRate(run: seq<Event>, client: string, burst: int, period: int)
    requires period > 0
  {
    forall s, t :: s <= t ==> RequestsIn(run, client, s, t) <= burst + (t - s) / period
  }

  lemma {:induction false} RequestsInGrow(a: seq<Event>, b: seq<Event>, client: string, s: int, t: int)
    ensures RequestsIn(a, client, s, t) <= RequestsIn(a + b, client, s, t)
    decreases |b|
  {
    if b == [] {
      assert a + b == a;
    } else {
      assert (a + b)[..|a + b| - 1] == a + b[..|b| - 1];
      RequestsInGrow(a, b[..|b| - 1], client, s, t);
    }
  }

  lemma {:induction false} RequestsInLater(run: seq<Event>, client: string, s: int, t: int, later: int)
    requires t <= later && forall e :: e in run ==> e.now <= t
    ensures RequestsIn(run, client, s, later) == RequestsIn(run, client, s, t)
  {
    if run != [] {
      var before := run[..|run| - 1];
      assert run[|run| - 1] in run && forall e :: e in before ==> e in run;
      RequestsInLater(before, client, s, t, later);
    }
  }

  lemma RequestsInStep(past: seq<Event>, e: Event, client: string, s: int, t: int)
    ensures RequestsIn(past + [e], client, s, t)
            == RequestsIn(past, client, s, t) + if IsRequest(e, client) && s <= e.now <= t then 1 else 0
  {
    assert (past + [e])[..|past|] == past;
  }

  /**
   What the bucket has left after a past in which every request was admitted: it is full, or it was full at
   some time s, and since then has gained the time that passed and paid for the requests.
   */
  ghost predicate Backed(r: Rate, level: int, past: seq<Event>, client: string, s: int, now: int) {
    level >= r.full || (s <= now && level >= r.full + (now - s) - r.period * RequestsIn(past, client, s, now))
  }

  /** No bucket is ahead of the clock. */
  ghost predicate Current(l: Limiter, now: int) {
    forall k :: k in l.buckets ==> l.buckets[k].last <= now
  }

  lemma LevelGains(r: Rate, l: Limiter, client: string, now: int, later: int)
    requires Current(l, now) && now <= later
    ensures LevelFor(r, l, client, later)
            == if LevelFor(r, l, client, now) + (later - now) < r.full
               then LevelFor(r, l, client, now) + (later - now) else r.full
  {
  }

  lemma BackedLater(r: Rate, level: int, past: seq<Event>, client: string, s: int, now: int, later: int)
    requires Backed(r, level, past, client, s, now) && now <= later && forall e :: e in past ==> e.now <= now
    ensures Backed(r, if level + (later - now) < r.full then level + (later - now) else r.full,
                   past, client, s, later)
  {
    RequestsInLater(past, client, s, now, later);
  }

  lemma EnoughForOneMore(n: int, burst: int, period: int, length: int)
    requires period > 0 && 0 <= length && n + 1 <= burst + length / period
    ensures period <= burst * period + length - period * n
  {
    MultiplyOrdered(n + 1, burst + length / period, period);
    assert (n + 1) * period == period * n + period;
    assert (burst + length / period) * period == burst * period + (length / period) * period;
    assert (length / period) * period <= length;
  }

  /** Keeping to the rate, the client finds at least one token. */
  lemma NextAdmitted(c: Config, level: int, past: seq<Event>, e: Event, rest: seq<Event>, client: string, s: int)
    requires 1 <= c.requestsPerMinute <= 60_000_000_000 && c.burst >= 1
    requires KeepsToRate(past + [e] + rest, client, c.burst, 60_000_000_000 / c.requestsPerMinute)
    requires IsRequest(e, client) && Backed(RateOf(c), level, past, client, s, e.now)
    ensures level >= RateOf(c).period
  {
    LimitedRate(c);
    var period := RateOf(c).period;
    if level >= RateOf(c).full {
      MultiplyOrdered(1, c.burst, period);
    } else {
      RequestsInStep(past, e, client, s, e.now);
      RequestsInGrow(past + [e], rest, client, s, e.now);
      EnoughForOneMore(RequestsIn(past, client, s, e.now), c.burst, period, e.now - s);
    }
  }

  /** Paying for one request keeps the bucket backed, from the time of the request if it was full. */
  lemma PaidBacked(r: Rate, level: int, past: seq<Event>, e: Event, client: string, s: int)
    requires IsRequest(e, client) && r.period > 0 && level <= r.full
    requires Backed(r, level, past, client, s, e.now)
    ensures Backed(r, level - r.period, past + [e], client, if level == r.full then e.now else s, e.now)
  {
    var from := if level == r.full then e.now else s;
    RequestsInStep(past, e, client, from, e.now);
    var n := RequestsIn(past, client, from, e.now);
    assert r.period * (n + 1) == r.period * n + r.period;
    if level == r.full { ProductSign(n, r.period); }
  }

  lemma OtherBacked(r: Rate, level: int, past: seq<Event>, e: Event, client: string, s: int)
    requires !IsRequest(e, client) && Backed(r, level, past, client, s, e.now)
    ensures Backed(r, level, past + [e], client, s, e.now)
  {
    RequestsInStep(past, e, client, s, e.now);
  }

  lemma StepCurrent(r: Rate, l: Limiter, e: Event, now: int)
    requires Current(l, now) && now <= e.now
    ensures Current(Step(r, l, e, true), e.now)
  {
  }

  /** One event, seen from the client: its own request costs a period if it is admitted, nothing else does. */
  lemma StepLevel(r: Rate, l: Limiter, e: Event, client: string)
    requires r.period > 0
    ensures var level := LevelFor(r, l, client, e.now);
            && level <= r.full
            && (IsRequest(e, client) ==> (Admission(r, l, e, client) == 1 <==> level >= r.period))
            && (!IsRequest(e, client) ==> Admission(r, l, e, client) == 0)
            && (Admission(r, l, e, client) == 0 ==> LevelFor(r, Step(r, l, e, true), client, e.now) == level)
            && (Admission(r, l, e, client) == 1 ==>
                  LevelFor(r, Step(r, l, e, true), client, e.now) == level - r.period)
  {
  }

  lemma {:induction false} AllAdmittedFrom(c: Config, l: Limiter, past: seq<Event>, rest: seq<Event>, client: string,
                                           s: int, now: int)
    requires 1 <= c.requestsPerMinute <= 60_000_000_000 && c.burst >= 1
    requires KeepsToRate(past + rest, client, c.burst, 60_000_000_000 / c.requestsPerMinute)
    requires Current(l, now) && Timed(rest, now) && forall e :: e in past ==> e.now <= now
    requires Backed(RateOf(c), LevelFor(RateOf(c), l, client, now), past, client, s, now)
    ensures Admissions(RateOf(c), l, rest, client) == Requests(rest, client)
    decreases |rest|
  {
    if rest != [] {
      LimitedRate(c);
      var r, e := RateOf(c), rest[0];
      var level := LevelFor(r, l, client, e.now);
      assert past + rest == past + [e] + rest[1..];
      LevelGains(r, l, client, now, e.now);
      BackedLater(r, LevelFor(r, l, client, now), past, client, s, now, e.now);
      StepLevel(r, l, e, client);
      StepCurrent(r, l, e, now);
      if IsRequest(e, client) {
        NextAdmitted(c, level, past, e, rest[1..], client, s);
        PaidBacked(r, level, past, e, client, s);
        AllAdmittedFrom(c, Step(r, l, e, true), past + [e], rest[1..], client,
                        if level == r.full then e.now else s, e.now);
      } else {
        OtherBacked(r, level, past, e, client, s);
        AllAdmittedFrom(c, Step(r, l, e, true), past + [e], rest[1..], client, s, e.now);
      }
    }
  }

  /**
   The converse of WindowBound: a client whose requests keep to the burst and the rate in every window is
   never refused, whatever other clients do and whenever idle buckets are deleted.
   */
  lemma KeepsToRateAdmitted(c: Config, run: seq<Event>, client: string, start: int)
    requires 1 <= c.requestsPerMinute <= 60_000_000_000 && c.burst >= 1 && Timed(run, start)
    requires KeepsToRate(run, client, c.burst, 60_000_000_000 / c.requestsPerMinute)
    ensures Admissions(RateOf(c), Limiter(map[], start), run, client) == Requests(run, client)
  {
    assert [] + run == run;
    AllAdmittedFrom(c, Limiter(map[], start), [], run, client, start, start);
  }

  /** The limiter limits exactly when the configured rate lies between one per minute and one per nanosecond. */
  lemma UnlimitedIff(c: Config)
    requires c.requestsPerMinute != 0
    ensures Unlimited(RateOf(c)) <==> c.requestsPerMinute < 0 || c.requestsPerMinute > 60_000_000_000
  {
  }

  /** Outside these rates it refuses nobody. */
  lemma {:induction false} UnlimitedAdmitsAll(c: Config, l: Limiter, run: seq<Event>, client: string)
    requires c.requestsPerMinute < 0 || c.requestsPerMinute > 60_000_000_000
    ensures Admissions(RateOf(c), l, run, client) == Requests(run, client)
    decreases |run|
  {
    UnlimitedIff(c);
    if run != [] { UnlimitedAdmitsAll(c, Step(RateOf(c), l, run[0], true), run[1..], client); }
  }

  /** A cleanup deletes a bucket exactly when it is full and the last cleanup is more than the interval ago. */
  lemma CleanDropsIff(c: Config, l: Limiter, now: int, client: string)
    requires 1 <= c.requestsPerMinute <= 60_000_000_000 && client in l.buckets
    ensures var b := l.buckets[client];
            var gained := if now > b.last then now - b.last else 0;
            var after := Clean(RateOf(c), l, now);
            && (client !in after.buckets
                <==> && b.credit + gained >= c.burst * (60_000_000_000 / c.requestsPerMinute)
                     && now - l.lastClean > c.cleanupInterval)
            && (client in after.buckets ==> after.buckets[client] == b) && after.lastClean == now
  {
    LimitedRate(c);
  }

  // ----- the limiter object

  class RateLimiter {
    const config: Config
    var limiters: map<string, Bucket>
    var lastClean: int

    constructor (c: Config, now: int)
      ensures config == c && State() == Limiter(map[], now)
    {
      config, limiters, lastClean := c, map[], now;
    }

    function State(): Limiter
      reads this
    {
      Limiter(limiters, lastClean)
    }

    method IsWhitelisted(ip: string) returns (found: bool)
      ensures found <==> ip in config.whitelist
    {
      for i := 0 to |config.whitelist|
        invariant ip !in config.whitelist[..i]
      {
        if config.whitelist[i] == ip {
          return true;
        }
      }
      return false;
    }

    /** The existing bucket of the client, or a new full one that is put in the table. */
    method GetLimiter(client: string, now: int) returns (b: Bucket)
      requires config.requestsPerMinute != 0
      modifies this`limiters
      ensures b == BucketOf(RateOf(config), old(State()), client, now)
      ensures limiters == old(limiters)[client := b]
    {
      if client in limiters {
        b := limiters[client];
        return;
      }
      b := Bucket(RateOf(config).full, now);
      limiters := limiters[client := b];
    }

    /** One request through the middleware; requests without an identity or from a listed IP are not limited. */
    method Handle(client: string, ip: string, now: int) returns (admitted: bool)
      requires config.requestsPerMinute != 0
      modifies this`limiters
      ensures var limited := client != "" && ip !in config.whitelist;
              var r := RateOf(config);
              && admitted == (!limited || Allows(r, BucketOf(r, old(State()), client, now), now))
              && State() == if limited then Serve(r, old(State()), client, now) else old(State())
    {
      if client == "" {
        return true;
      }
      var listed := IsWhitelisted(ip);
      if listed {
        return true;
      }
      var b := GetLimiter(client, now);
      if Unlimited(RateOf(config)) {
        return true;
      }
      var level := Level(RateOf(config), b, now);
      admitted := level >= Period(config);
      if admitted {
        limiters := limiters[client := Bucket(level - Period(config), now)];
      }
    }

    /** Ranges over the table and deletes the idle entries, then notes the time. */
    method CleanupIdle(now: int)
      requires config.requestsPerMinute != 0
      modifies this
      ensures State() == Clean(RateOf(config), old(State()), now)
    {
      var todo := limiters.Keys;
      while todo != {}
        invariant lastClean == old(lastClean) && todo <= limiters.Keys
        invariant forall k :: k in limiters ==> k in old(limiters) && limiters[k] == old(limiters)[k]
        invariant forall k :: k in old(limiters) ==>
          (k in limiters <==> k in todo || !Idle(RateOf(config), old(State()), old(limiters)[k], now))
        decreases |todo|
      {
        ghost var some := Member(todo);
        var client :| client in todo;
        todo := todo - {client};
        var level := Level(RateOf(config), limiters[client], now);
        if level >= RateOf(config).full && now - lastClean > config.cleanupInterval {
          limiters := limiters - {client};
        }
      }
      lastClean := now;
      assert limiters == Clean(RateOf(config), old(State()), now).buckets;
    }
  }
}
