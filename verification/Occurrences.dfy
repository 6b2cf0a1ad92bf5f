/** When a schedule fires: the calendar, the catch-up rule and the occurrence key. */
module Occurrences {
  import opened Wrappers

  type ScheduleId = nat

  /** JavaScript dates, in milliseconds. */
  type Millis = int

  const HOUR: Millis := 3_600_000

  /**
   The cron library: `occurs` says when an expression fires in its timezone, and `next` is
   nextRun, with None where nextOccurrence throws.
   */
  datatype Calendar = Calendar(occurs: (string, Millis) -> bool, next: (string, Millis) -> Option<Millis>)

  predicate Between(from: Millis, t: Millis, to: Millis) {
    from < t < to
  }

  /** `next` is the least occurrence strictly after its argument, if there is one. */
  ghost predicate Lawful(cal: Calendar) {
    && (forall cron, t: Millis | cal.next(cron, t).Some? ::
          && cal.next(cron, t).value > t
          && cal.occurs(cron, cal.next(cron, t).value)
          && forall u | Between(t, u, cal.next(cron, t).value) :: !cal.occurs(cron, u))
    && (forall cron, t: Millis | cal.next(cron, t).None? :: forall u | u > t :: !cal.occurs(cron, u))
  }

  datatype Catchup = SkipMissed | RunOnce

  /** Late by more than an hour, under skip_missed. */
  predicate ShouldFire(catchup: Catchup, planned: Millis, clock: Millis) {
    !(catchup == SkipMissed && (clock - planned) as real / 1000.0 > 3600.0)
  }

  /** next_run_at after an occurrence is processed; an invalid expression is put off an hour. */
  function MoveTo(cal: Calendar, cron: string, clock: Millis): Millis {
    match cal.next(cron, clock)
    case Some(t) => t
    case None => clock + HOUR
  }

  /**
   Computing from now and not from the planned time moves a schedule strictly past an
   occurrence exactly when the scheduler's clock has reached it: a clock behind the
   database's leaves the same occurrence, or an earlier one, due again.
   */
  lemma MovesPastExactly(cal: Calendar, cron: string, planned: Millis, clock: Millis)
    requires Lawful(cal) && cal.occurs(cron, planned)
    ensures MoveTo(cal, cron, clock) > clock
    ensures cal.next(cron, clock).None? ==> MoveTo(cal, cron, clock) == clock + 3_600_000
    ensures cal.next(cron, clock).Some? ==> (MoveTo(cal, cron, clock) > planned <==> clock >= planned)
  {
    if clock < planned {
      assert cal.next(cron, clock).Some?;
      assert planned < MoveTo(cal, cron, clock) ==> Between(clock, planned, MoveTo(cal, cron, clock));
    }
  }

  // ----- the occurrence key -----

  function Digit(d: nat): char
    requires d < 10
  {
    '0' + d as char
  }

  function Decimal(n: nat): string {
    if n < 10 then [Digit(n)] else Decimal(n / 10) + [Digit(n % 10)]
  }

  function Value(s: string): int {
    if s == [] then 0 else 10 * Value(s[..|s| - 1]) + (s[|s| - 1] as int - '0' as int)
  }

  lemma {:induction false} ValueOfDecimal(n: nat)
    ensures Value(Decimal(n)) == n && Decimal(n) != []
    ensures forall c | c in Decimal(n) :: '0' <= c <= '9'
  {
    var s := Decimal(n);
    if n < 10 {
      assert s[..|s| - 1] == [];
    } else {
      ValueOfDecimal(n / 10);
      assert s[..|s| - 1] == Decimal(n / 10);
    }
  }

  const PREFIX := "sched:"

  function OccurrenceKey(iso: Millis -> string, schedule: ScheduleId, planned: Millis): string {
    PREFIX + Decimal(schedule) + ":" + iso(planned)
  }

  /** toISOString writes different instants differently. */
  ghost predicate Injective(iso: Millis -> string) {
    forall t, u | t != u :: iso(t) != iso(u)
  }

  predicate NoColon(s: string) {
    forall c | c in s :: c != ':'
  }

  /** The text before the first colon is all that decides it. */
  lemma FirstColon(a: string, b: string, x: string, y: string)
    requires NoColon(a) && NoColon(b) && a + ":" + x == b + ":" + y
    ensures a == b && x == y
  {
    var s := a + ":" + x;
    assert s[|a|] == ':' && s[|b|] == ':';
    BeforeColon(a, x);
    BeforeColon(b, y);
    assert s[..|a|] == a && s[..|b|] == b;
    assert s[|a| + 1..] == x && s[|b| + 1..] == y;
  }

  lemma BeforeColon(a: string, x: string)
    requires NoColon(a)
    ensures forall k | 0 <= k < |a| :: (a + ":" + x)[k] != ':'
  {
    assert forall k | 0 <= k < |a| :: (a + ":" + x)[k] == a[k] && a[k] in a;
  }

  /** Two schedulers agree on the key of an occurrence, and no two occurrences share one. */
  lemma OccurrenceKeyInjective(iso: Millis -> string, s: ScheduleId, t: Millis, s': ScheduleId, t': Millis)
    requires Injective(iso)
    ensures OccurrenceKey(iso, s, t) == OccurrenceKey(iso, s', t') <==> s == s' && t == t'
    ensures PREFIX <= OccurrenceKey(iso, s, t)
  {
    ValueOfDecimal(s);
    ValueOfDecimal(s');
    var k, k' := OccurrenceKey(iso, s, t), OccurrenceKey(iso, s', t');
    var tail, tail' := Decimal(s) + ":" + iso(t), Decimal(s') + ":" + iso(t');
    assert k == PREFIX + tail && k' == PREFIX + tail';
    assert k[|PREFIX|..] == tail && k'[|PREFIX|..] == tail';
    if k == k' {
      FirstColon(Decimal(s), Decimal(s'), iso(t), iso(t'));
    }
  }
}
