/** Retry delays. Delays are real milliseconds until they are rounded. */
module Backoff {
  import opened Jobs
  import opened Statements
  import opened History
  import opened Guarantees

  datatype Jitter = NoJitter | EqualJitter | FullJitter

  datatype Options = Options(initialMs: real, multiplier: real, maxMs: nat, jitter: Jitter)

  /** What configuration parsing accepts. */
  predicate Configured(o: Options) {
    0.0 <= o.initialMs && 1.0 <= o.multiplier
  }

  function Pow(m: real, n: nat): real {
    if n == 0 then 1.0 else m * Pow(m, n - 1)
  }

  function RawDelayMs(attempt: int, o: Options): real
    requires 1 <= attempt
  {
    o.initialMs * Pow(o.multiplier, attempt - 1)
  }

  function BaseDelayMs(attempt: int, o: Options): real {
    if attempt < 1 then 0.0
    else if RawDelayMs(attempt, o) < o.maxMs as real then RawDelayMs(attempt, o)
    else o.maxMs as real
  }

  /** Math.round. */
  function Round(x: real): int {
    (x + 0.5).Floor
  }

  /** `random` is one draw from [0, 1). */
  function NextDelayMs(attempt: int, o: Options, random: real): int {
    var base := BaseDelayMs(attempt, o);
    if base <= 0.0 then 0
    else
      match o.jitter
      case NoJitter => Round(base)
      case EqualJitter => Round(base / 2.0 + random * (base / 2.0))
      case FullJitter => Round(random * base)
  }

  /** The delay of a retry-after error, capped like every other one; it may be negative. */
  function RetryAfterMs(requestedMs: int, o: Options): int {
    if requestedMs < o.maxMs then requestedMs else o.maxMs
  }

  lemma {:induction false} PowGrows(m: real, a: nat, b: nat)
    requires 1.0 <= m && a <= b
    ensures 1.0 <= Pow(m, a) <= Pow(m, b)
  {
    if b > 0 {
      if a == b {
        PowGrows(m, a - 1, b - 1);
      } else {
        PowGrows(m, a, b - 1);
      }
    }
  }

  /** Later attempts never wait less, nothing waits beyond the cap, and the cap once reached stays. */
  lemma BaseDelayMonotone(a: int, b: int, o: Options)
    requires Configured(o) && a <= b
    ensures 0.0 <= BaseDelayMs(a, o) <= BaseDelayMs(b, o) <= o.maxMs as real
    ensures 1 <= a && BaseDelayMs(a, o) == o.maxMs as real ==> BaseDelayMs(b, o) == o.maxMs as real
  {
    if 1 <= a {
      RawDelayMonotone(a, b, o);
    } else if 1 <= b {
      RawDelayMonotone(b, b, o);
    }
  }

  lemma RawDelayMonotone(a: int, b: int, o: Options)
    requires Configured(o) && 1 <= a <= b
    ensures 0.0 <= RawDelayMs(a, o) <= RawDelayMs(b, o)
  {
    PowGrows(o.multiplier, a - 1, b - 1);
    ScaleMonotone(o.initialMs, Pow(o.multiplier, a - 1), Pow(o.multiplier, b - 1));
  }

  lemma ScaleMonotone(c: real, x: real, y: real)
    requires 0.0 <= c && 0.0 <= x <= y
    ensures 0.0 <= c * x <= c * y
  {
  }

  /** The first retry waits the initial delay, each later one the last times the multiplier, up to the cap. */
  lemma BaseDelayGrows(attempt: int, o: Options)
    requires Configured(o)
    ensures var cap := o.maxMs as real;
      && BaseDelayMs(1, o) == (if o.initialMs < cap then o.initialMs else cap)
      && (1 <= attempt ==>
            var grown := o.multiplier * BaseDelayMs(attempt, o);
            BaseDelayMs(attempt + 1, o) == if grown < cap then grown else cap)
      && (attempt < 1 ==> BaseDelayMs(attempt, o) == 0.0)
  {
    if 1 <= attempt {
      var raw := RawDelayMs(attempt, o);
      assert RawDelayMs(attempt + 1, o) == o.initialMs * (o.multiplier * Pow(o.multiplier, attempt - 1))
          == o.multiplier * raw;
      MultiplierKeepsCap(o.multiplier, o.maxMs as real, raw);
    }
  }

  lemma MultiplierKeepsCap(m: real, cap: real, raw: real)
    requires 1.0 <= m && 0.0 <= cap
    ensures raw >= cap ==> m * raw >= cap && m * cap >= cap
  {
    if raw >= cap {
      ScaleMonotone(m, cap, raw);
      ScaleMonotone(cap, 1.0, m);
    }
  }

  /** `n` is `x` to the nearest millisecond, a half counting up. */
  predicate Nearest(n: int, x: real) {
    n as real - 0.5 <= x < n as real + 0.5
  }

  /**
   No jitter is the base itself, equal jitter lies on the upper half of the way to it and full
   jitter on the whole way, each as far along as the draw.
   */
  lemma JitterExact(attempt: int, o: Options, random: real)
    requires Configured(o) && 0.0 <= random < 1.0
    ensures var base := BaseDelayMs(attempt, o);
      match o.jitter
      case NoJitter => Nearest(NextDelayMs(attempt, o, random), base)
      case EqualJitter => Nearest(NextDelayMs(attempt, o, random), base * (1.0 + random) / 2.0)
      case FullJitter => Nearest(NextDelayMs(attempt, o, random), base * random)
  {
    var base := BaseDelayMs(attempt, o);
    BaseDelayMonotone(attempt, attempt, o);
    assert base * (1.0 + random) / 2.0 == base / 2.0 + random * (base / 2.0);
  }

  /** What an error asks for itself is sent as it is up to the cap; both kinds are sent in microseconds. */
  lemma DelaySent(o: Options, attempt: int, random: real, requestedMs: int)
    ensures DelayOf(Computed(attempt, random), o) == NextDelayMs(attempt, o, random) * 1000
    ensures requestedMs <= o.maxMs ==> DelayOf(RetryAfter(requestedMs), o) == requestedMs * 1000
    ensures requestedMs >= o.maxMs ==> DelayOf(RetryAfter(requestedMs), o) == o.maxMs * 1000
  {
  }

  /** Every strategy stays between zero and the rounded base, hence below the cap. */
  lemma DelayBounded(attempt: int, o: Options, random: real)
    requires Configured(o) && 0.0 <= random < 1.0
    ensures 0 <= NextDelayMs(attempt, o, random) <= Round(BaseDelayMs(attempt, o)) <= o.maxMs
    ensures o.jitter.EqualJitter? ==> Round(BaseDelayMs(attempt, o) / 2.0) <= NextDelayMs(attempt, o, random)
  {
    var base := BaseDelayMs(attempt, o);
    BaseDelayMonotone(attempt, attempt, o);
    RoundMonotone(base, o.maxMs as real);
    assert Round(o.maxMs as real) == o.maxMs;
    JitterBounded(base, random);
  }

  lemma JitterBounded(base: real, random: real)
    requires 0.0 <= base && 0.0 <= random < 1.0
    ensures 0 <= Round(random * base) <= Round(base)
    ensures 0 <= Round(base / 2.0) <= Round(base / 2.0 + random * (base / 2.0)) <= Round(base)
  {
    ScaleMonotone(base, random, 1.0);
    ScaleMonotone(base / 2.0, random, 1.0);
    RoundMonotone(random * base, base);
    RoundMonotone(base / 2.0, base / 2.0 + random * (base / 2.0));
    RoundMonotone(base / 2.0 + random * (base / 2.0), base);
  }

  lemma RoundMonotone(x: real, y: real)
    requires 0.0 <= x <= y
    ensures 0 <= Round(x) <= Round(y)
  {
  }

  /** How the runner and the reaper compute the delay they send. */
  datatype DelaySource = Computed(attempt: int, random: real) | RetryAfter(requestedMs: int)

  function DelayOf(d: DelaySource, o: Options): Time {
    1000 * (match d
            case Computed(attempt, random) => NextDelayMs(attempt, o, random)
            case RetryAfter(requestedMs) => RetryAfterMs(requestedMs, o))
  }

  predicate Drawn(d: DelaySource) {
    d.Computed? ==> 0.0 <= d.random < 1.0
  }

  ghost predicate SendsBackoff(s: Stmt, o: Options) {
    && (s.Send? && s.report.Fail? ==> exists d :: Drawn(d) && s.report.delay == DelayOf(d, o))
    && (s.Reap? ==> exists d :: Drawn(d) && s.delay == DelayOf(d, o))
  }

  lemma SentDelayCapped(d: DelaySource, o: Options)
    requires Configured(o) && Drawn(d)
    ensures DelayOf(d, o) <= 1000 * o.maxMs
  {
    if d.Computed? {
      DelayBounded(d.attempt, o, d.random);
    }
  }

  /**
   In every run in which workers and reapers use this configuration, all the backoff a job
   collects between two replays is at most (max_attempts - 1) * maxMs.
   */
  lemma WholeLifeBackoff(es: seq<Event>, o: Options, i: Id)
    requires Configured(o) && (forall e | e in es :: SendsBackoff(e.stmt, o)) && i in Run(START, es).db.jobs
    ensures var w := Run(START, es);
      && i in w.past
      && w.past[i].delayed <= (w.db.jobs[i].maxAttempts - 1) * (1000 * o.maxMs)
  {
    forall e | e in es ensures DelayAtMost(e.stmt, 1000 * o.maxMs) {
      if e.stmt.Send? && e.stmt.report.Fail? {
        var d :| Drawn(d) && e.stmt.report.delay == DelayOf(d, o);
        SentDelayCapped(d, o);
      } else if e.stmt.Reap? {
        var d :| Drawn(d) && e.stmt.delay == DelayOf(d, o);
        SentDelayCapped(d, o);
      }
    }
    LifetimeBackoff(es, 1000 * o.maxMs, i);
  }

  datatype Step = Step(attempt: int, baseMs: real, worstCaseMs: real)

  /** The documented retry schedule: one step for each retry the attempt budget allows. */
  method DescribeSchedule(maxAttempts: int, o: Options) returns (out: seq<Step>)
    requires Configured(o)
    ensures |out| == if maxAttempts > 1 then maxAttempts - 1 else 0
    ensures forall k | 0 <= k < |out| ::
      out[k].attempt == k + 1 && out[k].baseMs == out[k].worstCaseMs == BaseDelayMs(k + 1, o)
    ensures forall j, k | 0 <= j <= k < |out| :: out[j].worstCaseMs <= out[k].worstCaseMs <= o.maxMs as real
  {
    out := [];
    var a := 1;
    while a < maxAttempts
      invariant 1 <= a && (a <= maxAttempts || a == 1) && |out| == a - 1
      invariant forall k | 0 <= k < |out| ::
        out[k].attempt == k + 1 && out[k].baseMs == out[k].worstCaseMs == BaseDelayMs(k + 1, o)
    {
      var base := BaseDelayMs(a, o);
      out := out + [Step(a, base, base)];
      a := a + 1;
    }
    forall j, k | 0 <= j <= k < |out| ensures out[j].worstCaseMs <= out[k].worstCaseMs <= o.maxMs as real {
      BaseDelayMonotone(j + 1, k + 1, o);
    }
  }
}
