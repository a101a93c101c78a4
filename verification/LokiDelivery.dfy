/**
 Log delivery of app/monitoring.py: a bounded queue that drops when full, one
 listener thread, and a handler that backs off exponentially, under every
 interleaving of producers, listener and clock.
 */
module LokiDelivery {

  const QUEUE_SIZE := 10_000
  const BACKOFF_MAX: real := 120.0
  /** 2.0 ** n raises OverflowError from here on. */
  const OVERFLOW_AT := 1024

  function Pow2(n: nat): real {
    if n == 0 then 1.0 else 2.0 * Pow2(n - 1)
  }

  function Backoff(n: nat): real {
    if Pow2(n) <= BACKOFF_MAX then Pow2(n) else BACKOFF_MAX
  }

  /** How the push ended. */
  datatype Answer = Accepted | HttpError | PushRaised

  /** What emit reads and writes: the shared statistics and the handler's own fields. */
  datatype Delivery = Delivery(sent: nat, dropped: nat, sharedFailures: nat, failures: nat, nextRetryAt: real)

  // ---- One emit, start to end ----

  /** _handle_failure up to the assignment of _next_retry_at. */
  function CountFailure(d: Delivery, at: real): Delivery {
    d.(failures := d.failures + 1, nextRetryAt := at + Backoff(d.failures + 1))
  }

  predicate Overflows(d: Delivery) {
    d.failures + 1 >= OVERFLOW_AT
  }

  /** An overflow in the else branch is caught once and handled, and raises, again. */
  function OverflowCount(d: Delivery, answer: Answer): Delivery {
    d.(failures := d.failures + if answer.HttpError? then 2 else 1)
  }

  function Emitted(d: Delivery, now: real, answer: Answer, failedAt: real): Delivery {
    if now < d.nextRetryAt then d.(dropped := d.dropped + 1)
    else if answer.Accepted? then d.(sent := d.sent + 1, sharedFailures := 0, failures := 0)
    else if Overflows(d) then OverflowCount(d, answer)
    else
      var e := CountFailure(d, failedAt);
      e.(dropped := e.dropped + 1, sharedFailures := e.failures)
  }

  predicate EmitRaises(d: Delivery, now: real, answer: Answer) {
    now >= d.nextRetryAt && !answer.Accepted? && Overflows(d)
  }

  class LokiStats {
    var sent: nat
    var dropped: nat
    var consecutiveFailures: nat

    constructor ()
      ensures sent == 0 && dropped == 0 && consecutiveFailures == 0
    {
      sent, dropped, consecutiveFailures := 0, 0, 0;
    }
  }

  class ResilientLokiHandler {
    const stats: LokiStats
    var failures: nat
    var nextRetryAt: real

    constructor (stats: LokiStats)
      ensures this.stats == stats && failures == 0 && nextRetryAt == 0.0
    {
      this.stats, failures, nextRetryAt := stats, 0, 0.0;
    }

    ghost function Value(): Delivery
      reads this, stats
    {
      Delivery(stats.sent, stats.dropped, stats.consecutiveFailures, failures, nextRetryAt)
    }

    method HandleFailure(at: real) returns (raised: bool)
      modifies this, stats
      ensures raised <==> old(failures) + 1 >= OVERFLOW_AT
      ensures raised ==> Value() == old(Value()).(failures := old(failures) + 1)
      ensures !raised ==> Value() == old(Value()).(
        failures := old(failures) + 1, sharedFailures := old(failures) + 1,
        dropped := old(stats.dropped) + 1, nextRetryAt := at + Backoff(old(failures) + 1))
    {
      failures := failures + 1;
      if failures >= OVERFLOW_AT {
        return true;
      }
      nextRetryAt := at + Backoff(failures);
      stats.dropped := stats.dropped + 1;
      stats.consecutiveFailures := failures;
      return false;
    }

    method Emit(now: real, answer: Answer, failedAt: real) returns (raised: bool)
      modifies this, stats
      ensures Value() == Emitted(old(Value()), now, answer, failedAt)
      ensures raised <==> EmitRaises(old(Value()), now, answer)
    {
      if now < nextRetryAt {
        stats.dropped := stats.dropped + 1;
        return false;
      }
      match answer {
        case Accepted =>
          stats.sent := stats.sent + 1;
          stats.consecutiveFailures := 0;
          failures := 0;
          raised := false;
        case HttpError =>
          raised := HandleFailure(failedAt);
          if raised {
            raised := HandleFailure(failedAt);
          }
        case PushRaised =>
          raised := HandleFailure(failedAt);
      }
    }
  }

  // ---- All interleavings ----

  /** Where the listener thread is. Dead: an exception escaped emit. */
  datatype Phase =
    | Idle
    | Holding                 // a record taken from the queue, emit not begun
    | Posting(startedAt: real)
    | Counted                 // sent counted, own counter not yet reset
    | Failing                 // own counter and retry time set, statistics not yet
    | Dead

  /** offered and starts are history: records given to the queue handler, and starts of the failed attempts since the last success. */
  datatype State<R> = State(
    clock: real, queue: seq<R>, phase: Phase, d: Delivery, offered: nat, starts: seq<real>)

  datatype Step<R> = Tick(to: real) | Offer(record: R) | Take | Check | Finish(answer: Answer) | Settle

  function Next<R>(s: State<R>, step: Step<R>): State<R> {
    match step
    case Tick(to) => if s.clock <= to then s.(clock := to) else s
    case Offer(record) =>
      if |s.queue| < QUEUE_SIZE then s.(queue := s.queue + [record], offered := s.offered + 1)
      else s.(d := s.d.(dropped := s.d.dropped + 1), offered := s.offered + 1)
    case Take =>
      if s.phase.Idle? && s.queue != [] then s.(queue := s.queue[1..], phase := Holding) else s
    case Check =>
      if !s.phase.Holding? then s
      else if s.clock < s.d.nextRetryAt then s.(d := s.d.(dropped := s.d.dropped + 1), phase := Idle)
      else s.(phase := Posting(s.clock))
    case Finish(answer) =>
      if !s.phase.Posting? then s
      else if answer.Accepted? then s.(d := s.d.(sent := s.d.sent + 1, sharedFailures := 0), phase := Counted)
      else if Overflows(s.d) then s.(d := OverflowCount(s.d, answer), phase := Dead)
      else s.(d := CountFailure(s.d, s.clock), phase := Failing, starts := s.starts + [s.phase.startedAt])
    case Settle =>
      match s.phase
      case Counted => s.(d := s.d.(failures := 0), phase := Idle, starts := [])
      case Failing => s.(d := s.d.(dropped := s.d.dropped + 1, sharedFailures := s.d.failures), phase := Idle)
      case _ => s
  }

  function Run<R>(s: State<R>, steps: seq<Step<R>>): State<R>
    decreases |steps|
  {
    if steps == [] then s else Run(Next(s, steps[0]), steps[1..])
  }

  function Start<R>(clock: real): State<R> {
    State(clock, [], Idle, Delivery(0, 0, 0, 0, 0.0), 0, [])
  }

  /** Without anything in between, the listener's steps for one record are one emit. */
  lemma StepsAreEmit<R>(s: State<R>, answer: Answer, failedAt: real)
    requires s.phase.Holding? && s.clock <= failedAt
    ensures Run(s, [Check, Tick(failedAt), Finish(answer), Settle]).d == Emitted(s.d, s.clock, answer, failedAt)
    ensures Run(s, [Check, Tick(failedAt), Finish(answer), Settle]).phase
         == if EmitRaises(s.d, s.clock, answer) then Dead else Idle
  {
    var steps: seq<Step<R>> := [Check, Tick(failedAt), Finish(answer), Settle];
    var s1 := Next(s, Check);
    var s2 := Next(s1, Tick(failedAt));
    var s3 := Next(s2, Finish(answer));
    assert steps[1..] == [Tick(failedAt), Finish(answer), Settle];
    assert steps[1..][1..] == [Finish(answer), Settle];
    assert steps[1..][1..][1..] == [Settle];
    assert steps[1..][1..][1..][1..] == [];
    assert Run(s, steps) == Run(s1, steps[1..]);
    assert Run(s1, steps[1..]) == Run(s2, steps[1..][1..]);
    assert Run(s2, steps[1..][1..]) == Run(s3, steps[1..][1..][1..]);
    assert Run(s3, [Settle]) == Next(s3, Settle);
  }

  /** Records the listener holds and no counter has counted yet. */
  function InFlight(p: Phase): nat {
    if p.Holding? || p.Posting? || p.Failing? then 1 else 0
  }

  function Lost(p: Phase): nat {
    if p.Dead? then 1 else 0
  }

  ghost predicate Conserves<R>(s: State<R>) {
    && s.offered == |s.queue| + InFlight(s.phase) + s.d.sent + s.d.dropped + Lost(s.phase)
    && |s.queue| <= QUEUE_SIZE
  }

  ghost predicate CountersAgree<R>(s: State<R>) {
    && (s.phase.Idle? || s.phase.Holding? || s.phase.Posting? ==> s.d.sharedFailures == s.d.failures)
    && (s.phase.Counted? ==> s.d.sharedFailures == 0)
    && (!s.phase.Dead? ==> s.d.failures == |s.starts| < OVERFLOW_AT)
    && (s.phase.Dead? ==> |s.starts| == OVERFLOW_AT - 1)
  }

  /** Each failed attempt began at least its predecessor's backoff after it. */
  ghost predicate Spaced(starts: seq<real>) {
    forall i :: 0 <= i < |starts| - 1 ==> starts[i + 1] - starts[i] >= Backoff(i + 1)
  }

  ghost predicate BacksOff<R>(s: State<R>) {
    && Spaced(s.starts)
    && (s.starts != [] ==>
          && s.starts[|s.starts| - 1] <= s.clock
          && s.d.nextRetryAt >= s.starts[|s.starts| - 1] + Backoff(|s.starts|))
    && (s.phase.Posting? ==> s.d.nextRetryAt <= s.phase.startedAt <= s.clock)
  }

  ghost predicate Inv<R>(s: State<R>) {
    Conserves(s) && CountersAgree(s) && BacksOff(s)
  }

  lemma StepConserves<R>(s: State<R>, step: Step<R>)
    requires Conserves(s)
    ensures Conserves(Next(s, step))
  {
  }

  lemma StepCounters<R>(s: State<R>, step: Step<R>)
    requires CountersAgree(s)
    ensures CountersAgree(Next(s, step))
  {
  }

  lemma StepBacksOff<R>(s: State<R>, step: Step<R>)
    requires BacksOff(s) && CountersAgree(s)
    ensures BacksOff(Next(s, step))
  {
    var t := Next(s, step);
    if t.starts != s.starts && t.starts != [] {
      forall i | 0 <= i < |t.starts| - 1 ensures t.starts[i + 1] - t.starts[i] >= Backoff(i + 1) {
        if i + 1 < |s.starts| {
          assert t.starts[i + 1] == s.starts[i + 1];
        }
      }
    }
  }

  lemma {:induction false} RunKeepsInv<R>(s: State<R>, steps: seq<Step<R>>)
    requires Inv(s)
    ensures Inv(Run(s, steps))
    decreases |steps|
  {
    if steps == [] {
    } else {
      StepConserves(s, steps[0]);
      StepCounters(s, steps[0]);
      StepBacksOff(s, steps[0]);
      RunKeepsInv(Next(s, steps[0]), steps[1..]);
    }
  }

  /**
   Conservation over every interleaving: each offered record is queued, in
   flight, sent or dropped, with exactly one record unaccounted for iff the
   listener has died; and at emit boundaries the shared failure counter is the
   handler's own.
   */
  lemma RecordsAreConserved<R>(clock: real, steps: seq<Step<R>>)
    ensures var s := Run(Start(clock), steps);
      && s.offered == |s.queue| + InFlight(s.phase) + s.d.sent + s.d.dropped + (if s.phase.Dead? then 1 else 0)
      && |s.queue| <= QUEUE_SIZE
      && (s.phase.Idle? ==> s.d.sharedFailures == s.d.failures)
  {
    RunKeepsInv(Start<R>(clock), steps);
  }

  /** The listener dies only on the 1024th consecutive failure, and then never delivers again. */
  lemma DeathNeedsOverflow<R>(clock: real, steps: seq<Step<R>>)
    requires Run(Start(clock), steps).phase.Dead?
    ensures |Run(Start(clock), steps).starts| == 1023
  {
    RunKeepsInv(Start<R>(clock), steps);
  }

  lemma {:induction false} DeadStaysDead<R>(s: State<R>, steps: seq<Step<R>>)
    requires s.phase.Dead?
    ensures Run(s, steps).phase.Dead? && Run(s, steps).d.sent == s.d.sent
    decreases |steps|
  {
    if steps == [] {
    } else {
      DeadStaysDead(Next(s, steps[0]), steps[1..]);
    }
  }

  /** A push fails while 1023 consecutive failures are counted. */
  predicate KillingPush<R>(s: State<R>, step: Step<R>) {
    s.phase.Posting? && s.d.failures == OVERFLOW_AT - 1 && step.Finish? && !step.answer.Accepted?
  }

  /** The push at position k of the run is a killing one. */
  predicate KilledAt<R(!new)>(s: State<R>, steps: seq<Step<R>>, k: nat) {
    k < |steps| && KillingPush(Run(s, steps[..k]), steps[k])
  }

  lemma {:induction false} DeadIff<R(!new)>(s: State<R>, steps: seq<Step<R>>)
    requires CountersAgree(s) && !s.phase.Dead?
    ensures Run(s, steps).phase.Dead? <==> exists k :: KilledAt(s, steps, k)
    decreases |steps|
  {
    if steps == [] {
    } else {
      var t, rest := Next(s, steps[0]), steps[1..];
      StepCounters(s, steps[0]);
      assert Run(s, steps[..0]) == s;
      assert t.phase.Dead? <==> KilledAt(s, steps, 0);
      if t.phase.Dead? {
        DeadStaysDead(t, rest);
      } else {
        DeadIff(t, rest);
        LaterKill(s, steps);
      }
    }
  }

  lemma LaterKill<R(!new)>(s: State<R>, steps: seq<Step<R>>)
    requires steps != [] && !KilledAt(s, steps, 0)
    ensures (exists k :: KilledAt(s, steps, k)) <==> exists k :: KilledAt(Next(s, steps[0]), steps[1..], k)
  {
    var t, rest := Next(s, steps[0]), steps[1..];
    forall k: nat | k < |rest| ensures KilledAt(s, steps, k + 1) <==> KilledAt(t, rest, k) {
      assert steps[..k + 1][1..] == rest[..k];
      assert Run(s, steps[..k + 1]) == Run(t, rest[..k]);
    }
    if k: nat :| KilledAt(s, steps, k) {
      assert k > 0 && KilledAt(t, rest, k - 1);
    }
  }

  /** Over every interleaving: the listener is dead iff some push failed while 1023 consecutive failures were counted. */
  lemma OverflowKills<R(!new)>(clock: real, steps: seq<Step<R>>)
    ensures Run(Start(clock), steps).phase.Dead? <==> exists k :: KilledAt(Start(clock), steps, k)
  {
    DeadIff(Start<R>(clock), steps);
  }

  // ---- A run that gets there ----

  lemma {:induction false} RunSnoc<R>(s: State<R>, steps: seq<Step<R>>, step: Step<R>)
    ensures Run(s, steps + [step]) == Next(Run(s, steps), step)
    decreases |steps|
  {
    if steps == [] {
      assert Run(s, [step]) == Run(Next(s, step), [step][1..]);
    } else {
      assert (steps + [step])[1..] == steps[1..] + [step];
      RunSnoc(Next(s, steps[0]), steps[1..], step);
    }
  }

  lemma Extended<R>(start: State<R>, steps: seq<Step<R>>, s: State<R>, step: Step<R>)
    returns (longer: seq<Step<R>>, t: State<R>)
    requires Run(start, steps) == s
    ensures t == Next(s, step) && Run(start, longer) == t
  {
    longer, t := steps + [step], Next(s, step);
    RunSnoc(start, steps, step);
  }

  /** The listener holds nothing, and its n records so far have all failed. */
  ghost predicate AllFailed<R>(s: State<R>, n: nat) {
    && s.phase.Idle? && s.queue == [] && s.d.failures == n
    && s.offered == n && s.d.dropped == n && s.d.sent == 0
  }

  /** One more record offered, taken, and pushed once the backoff is over. */
  lemma OneMorePush<R>(start: State<R>, steps: seq<Step<R>>, n: nat, record: R) returns (longer: seq<Step<R>>, s: State<R>)
    requires AllFailed(Run(start, steps), n)
    ensures Run(start, longer) == s && s.phase.Posting? && s.queue == []
    ensures s.d.failures == n && s.offered == n + 1 && s.d.dropped == n && s.d.sent == 0
  {
    longer, s := Extended(start, steps, Run(start, steps), Offer(record));
    longer, s := Extended(start, longer, s, Take);
    longer, s := Extended(start, longer, s, Tick(if s.clock <= s.d.nextRetryAt then s.d.nextRetryAt else s.clock));
    longer, s := Extended(start, longer, s, Check);
  }

  lemma {:induction false} FailuresAddUp<R>(clock: real, n: nat, record: R) returns (steps: seq<Step<R>>)
    requires n < OVERFLOW_AT
    ensures AllFailed(Run(Start(clock), steps), n)
  {
    if n == 0 {
      steps := [];
    } else {
      steps := FailuresAddUp(clock, n - 1, record);
      var s: State<R>;
      steps, s := OneMorePush(Start<R>(clock), steps, n - 1, record);
      steps, s := Extended(Start<R>(clock), steps, s, Finish(PushRaised));
      steps, s := Extended(Start<R>(clock), steps, s, Settle);
    }
  }

  /** The listener does die: 1024 records, 1023 of them counted as dropped, none sent, the last one counted nowhere. */
  lemma ListenerCanDie<R>(clock: real, record: R) returns (steps: seq<Step<R>>)
    ensures var s := Run(Start(clock), steps);
      s.phase.Dead? && s.offered == 1024 && s.d.dropped == 1023 && s.d.sent == 0 && s.queue == []
  {
    steps := FailuresAddUp(clock, 1023, record);
    var s: State<R>;
    steps, s := OneMorePush(Start<R>(clock), steps, 1023, record);
    steps, s := Extended(Start<R>(clock), steps, s, Finish(PushRaised));
  }

  // ---- The rate bound ----

  function BackoffSum(k: nat): real {
    if k == 0 then 0.0 else BackoffSum(k - 1) + Backoff(k)
  }

  lemma {:induction false} LongBackoff(n: nat)
    requires n >= 7
    ensures Pow2(n) >= 128.0 && Backoff(n) == 120.0
  {
    if n == 7 {
      assert Pow2(3) == 8.0;
      assert Pow2(5) == 32.0;
      assert Pow2(7) == 128.0;
    } else {
      LongBackoff(n - 1);
    }
  }

  lemma ShortBackoffs()
    ensures BackoffSum(6) == 126.0
  {
    assert Pow2(1) == 2.0 && Pow2(2) == 4.0;
    assert Pow2(3) == 8.0 && Pow2(4) == 16.0;
    assert Pow2(5) == 32.0 && Pow2(6) == 64.0;
    assert BackoffSum(2) == 6.0;
    assert BackoffSum(4) == 30.0;
  }

  lemma {:induction false} BackoffSumValue(k: nat)
    requires k >= 6
    ensures BackoffSum(k) == 126.0 + 120.0 * ((k - 6) as real)
  {
    if k == 6 {
      ShortBackoffs();
    } else {
      BackoffSumValue(k - 1);
      LongBackoff(k);
    }
  }

  lemma {:induction false} StartsSpread(starts: seq<real>, k: nat)
    requires Spaced(starts) && k < |starts|
    ensures starts[k] - starts[0] >= BackoffSum(k)
  {
    if k > 0 {
      StartsSpread(starts, k - 1);
      assert starts[(k - 1) + 1] - starts[k - 1] >= Backoff(k);
    }
  }

  /** In a run of n >= 7 consecutive failures the last attempt begins at least 126 + 120 (n - 7) seconds after the first. */
  lemma FailedAttemptsAreRare<R>(clock: real, steps: seq<Step<R>>)
    ensures var starts := Run(Start(clock), steps).starts;
      |starts| >= 7 ==> starts[|starts| - 1] - starts[0] >= 126.0 + 120.0 * ((|starts| - 7) as real)
  {
    RunKeepsInv(Start<R>(clock), steps);
    var starts := Run(Start(clock), steps).starts;
    if |starts| >= 7 {
      StartsSpread(starts, |starts| - 1);
      BackoffSumValue(|starts| - 1);
    }
  }

  /** In numbers: two seconds, doubled at each failure, and two minutes from the seventh on. */
  lemma Backoffs(n: nat)
    ensures Backoff(1) == 2.0 && Backoff(2) == 4.0 && Backoff(3) == 8.0
    ensures Backoff(4) == 16.0 && Backoff(5) == 32.0 && Backoff(6) == 64.0
    ensures n >= 7 ==> Backoff(n) == 120.0
  {
    assert Pow2(1) == 2.0 && Pow2(2) == 4.0;
    assert Pow2(3) == 8.0 && Pow2(4) == 16.0;
    assert Pow2(5) == 32.0 && Pow2(6) == 64.0;
    if n >= 7 {
      LongBackoff(n);
    }
  }

  /** In numbers: a record is queued iff fewer than ten thousand are, and else dropped; either way it is offered. */
  lemma OfferMeans<R>(s: State<R>, record: R)
    ensures var t := Next(s, Offer(record));
      && t.offered == s.offered + 1
      && (|s.queue| < 10_000 ==> t == s.(queue := s.queue + [record], offered := t.offered))
      && (|s.queue| >= 10_000 ==> t == s.(d := s.d.(dropped := s.d.dropped + 1), offered := t.offered))
  {
  }

  /** Once 1023 failures are counted, one more emit changes nothing else: a raising push is counted once, an HTTP error twice. */
  lemma OverflowLeaves(d: Delivery, now: real, failedAt: real)
    requires d.failures >= 1023 && now >= d.nextRetryAt
    ensures Emitted(d, now, PushRaised, failedAt) == d.(failures := d.failures + 1) && EmitRaises(d, now, PushRaised)
    ensures Emitted(d, now, HttpError, failedAt) == d.(failures := d.failures + 1 + 1) && EmitRaises(d, now, HttpError)
  {
  }

  /** Before that, either failure is counted, dropped and shared, and sets the retry time by the delay of its number. */
  lemma FailureCounts(d: Delivery, now: real, answer: Answer, failedAt: real)
    requires d.failures < 1023 && now >= d.nextRetryAt && !answer.Accepted?
    ensures !EmitRaises(d, now, answer)
    ensures Emitted(d, now, answer, failedAt)
         == Delivery(d.sent, d.dropped + 1, d.failures + 1, d.failures + 1, failedAt + Backoff(d.failures + 1))
  {
  }
}
