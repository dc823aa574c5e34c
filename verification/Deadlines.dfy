/** How long a rollout is polled, and how a handover keeps to the deadline it was accepted with. */
module Deadlines {
  import opened Common
  import opened MachineInts
  import opened Durations

  const SYNC_RETRY_DELAY: Time := 15 * SECOND
  const LEGACY_INTERVALS: int := 15

  /** An instance's polling configuration; zero means not configured. */
  datatype Config = Config(retryDelay: int64, defaultAttempts: uint64)

  function ResolvedDelay(c: Config): (delay: int64)
    ensures delay > 0
  {
    if c.retryDelay <= 0 then SYNC_RETRY_DELAY else c.retryDelay
  }

  function ResolvedDefaultAttempts(c: Config, delay: int64): (attempts: uint64)
    ensures attempts >= 1
  {
    if c.defaultAttempts != 0 then c.defaultAttempts
    else SafeIntToUint(CeilDivDuration(LEGACY_INTERVALS * SYNC_RETRY_DELAY, delay))
  }

  /** The poll budget: never zero, which the retry library would read as unlimited. */
  function RolloutAttempts(c: Config, timeout: int64, delay: int64): (attempts: uint64)
    ensures attempts >= 1
  {
    if timeout <= 0 then ResolvedDefaultAttempts(c, delay)
    else SafeIntToUint(Signed64(TruncDiv(timeout, CeilDivDuration(delay, SECOND)) + 1))
  }

  function RolloutWindow(c: Config, timeout: int64): int64 {
    var delay := ResolvedDelay(c);
    MulDurationSaturating(RolloutAttempts(c, timeout, delay), delay)
  }

  /** A configured delay is used, and 15 seconds otherwise. */
  lemma DelayIs(c: Config)
    ensures ResolvedDelay(c) == if c.retryDelay > 0 then c.retryDelay else 15 * SECOND
  {
  }

  /** A task without a timeout of its own gets the configured number of polls, whatever that is. */
  lemma ConfiguredAttempts(c: Config, timeout: int64)
    requires timeout <= 0 && c.defaultAttempts != 0
    ensures RolloutAttempts(c, timeout, ResolvedDelay(c)) == c.defaultAttempts
    ensures RolloutWindow(c, timeout) ==
      Min(c.defaultAttempts * (if c.retryDelay > 0 then c.retryDelay else 15 * SECOND), MAX_INT64)
  {
    MulSaturates(c.defaultAttempts, ResolvedDelay(c));
    hide MulDurationSaturating;
  }

  /** What the poll loop is configured with: its attempts and its deadline. */
  method ConfigureRetryOptions(c: Config, timeout: int64) returns (attempts: uint64, deadline: int64)
    ensures attempts == RolloutAttempts(c, timeout, ResolvedDelay(c)) && attempts >= 1
    ensures deadline == RolloutWindow(c, timeout) && deadline > 0
    ensures timeout <= 0 && c.defaultAttempts != 0 ==> attempts == c.defaultAttempts
    ensures deadline == Min(attempts * (if c.retryDelay > 0 then c.retryDelay else 15 * SECOND), MAX_INT64)
  {
    var delay := ResolvedDelay(c);
    var defaultAttempts := ResolvedDefaultAttempts(c, delay);
    if timeout <= 0 {
      attempts := defaultAttempts;
    } else {
      attempts := RolloutAttempts(c, timeout, delay);
    }
    deadline := MulDurationSaturating(attempts, delay);
    MulSaturates(attempts, delay);
    MulMono(1, attempts, delay);
  }

  /** The delay in whole seconds, rounded up, and at least one. */
  function DelaySteps(delay: int): int
    requires delay > 0
  {
    Ceil(delay, SECOND)
  }

  /** The poll budget on unbounded integers. */
  function IdealAttempts(timeout: int, delay: int): int
    requires delay > 0 && DelaySteps(delay) > 0
  {
    timeout / DelaySteps(delay) + 1
  }

  lemma StepsPositive(delay: int)
    requires delay > 0
    ensures DelaySteps(delay) >= 1 && (DelaySteps(delay) - 1) * SECOND < delay <= DelaySteps(delay) * SECOND
  {
    CeilBounds(delay, SECOND);
  }

  /**
   The machine's budget is the ideal one except in a single case: the largest timeout with a
   one-second step overflows to a single poll.
   */
  lemma AttemptsAreIdeal(c: Config, timeout: int64, delay: int64)
    requires timeout > 0 && 0 < delay && delay + SECOND - 1 <= MAX_INT64
    ensures DelaySteps(delay) >= 1
    ensures RolloutAttempts(c, timeout, delay) == IdealAttempts(timeout, delay)
      <==> !(timeout == MAX_INT64 && DelaySteps(delay) == 1)
    ensures timeout == MAX_INT64 && DelaySteps(delay) == 1 ==> RolloutAttempts(c, timeout, delay) == 1
  {
    StepsPositive(delay);
    CeilExactlyWhenItFits(delay, SECOND);
    var steps := DelaySteps(delay);
    hide Ceil, CeilDivDuration;
    QuotientBounds(timeout, steps);
    var q := timeout / steps;
    hide Signed64;
    if q + 1 <= MAX_INT64 {
      SignedFits(q + 1);
      BigQuotient(timeout, steps);
    } else {
      BigQuotient(timeout, steps);
      assert Signed64(TWO_63) == -TWO_63 by { WrapsOnce(); }
    }
  }

  lemma WrapsOnce()
    ensures Signed64(TWO_63) == -TWO_63
  {
  }

  lemma BigQuotient(timeout: int64, steps: int)
    requires timeout > 0 && steps >= 1
    ensures 0 <= timeout / steps <= timeout
    ensures timeout / steps == MAX_INT64 <==> timeout == MAX_INT64 && steps == 1
  {
    var q := timeout / steps;
    QuotientBounds(timeout, steps);
    if q < 0 { MulMono(q, -1, steps); }
    if q >= 1 {
      MulMono(1, steps, q);
      if steps >= 2 { MulMono(2, steps, q); }
    }
  }

  /** A budget of whole polls on unbounded integers ends after the timeout, and at most one delay later. */
  lemma IdealBudget(timeout: int, delay: int)
    requires timeout >= 1 && delay > 0
    ensures DelaySteps(delay) >= 1
    ensures IdealAttempts(timeout, delay) * delay <= timeout * SECOND + delay
    ensures delay % SECOND == 0 ==> timeout * SECOND < IdealAttempts(timeout, delay) * delay
  {
    StepsPositive(delay);
    var steps := DelaySteps(delay);
    var q := timeout / steps;
    QuotientBounds(timeout, steps);
    assert q >= 0 by { if q < 0 { MulMono(q, -1, steps); } }
    assert (q + 1) * delay == q * delay + delay;
    MulMono(delay, steps * SECOND, q);
    assert q * (steps * SECOND) == (q * steps) * SECOND;
    if delay % SECOND == 0 {
      WholeSteps(delay);
      assert (q + 1) * (steps * SECOND) == (q * steps + steps) * SECOND;
    }
  }

  lemma WholeSteps(delay: int)
    requires delay > 0 && delay % SECOND == 0
    ensures DelaySteps(delay) * SECOND == delay
  {
    StepsPositive(delay);
    var k := delay / SECOND;
    assert delay == k * SECOND;
    hide Ceil;
    if k < DelaySteps(delay) { MulMono(k, DelaySteps(delay) - 1, SECOND); }
    if k > DelaySteps(delay) { MulMono(DelaySteps(delay) + 1, k, SECOND); }
  }

  /** Every timeout gets its full time exactly when the delay is a whole number of seconds. */
  lemma CoveredExactlyForWholeSeconds(delay: int)
    requires delay > 0
    ensures DelaySteps(delay) >= 1
    ensures (forall timeout :: timeout >= 1 ==> timeout * SECOND < IdealAttempts(timeout, delay) * delay)
      <==> delay % SECOND == 0
  {
    StepsPositive(delay);
    if delay % SECOND == 0 {
      forall timeout | timeout >= 1 ensures timeout * SECOND < IdealAttempts(timeout, delay) * delay {
        IdealBudget(timeout, delay);
      }
    } else {
      var timeout := ShortChanged(delay);
      assert timeout * SECOND >= IdealAttempts(timeout, delay) * delay;
    }
  }

  /** With a fractional delay, a long enough timeout outlasts its polls. */
  lemma ShortChanged(delay: int) returns (timeout: int)
    requires delay > 0 && delay % SECOND != 0
    ensures timeout >= 1 && DelaySteps(delay) >= 1 && timeout * SECOND >= IdealAttempts(timeout, delay) * delay
  {
    StepsPositive(delay);
    var steps := DelaySteps(delay);
    assert steps * SECOND >= delay + 1 by {
      assert (steps * SECOND) % SECOND == 0;
    }
    hide Ceil;
    timeout := steps * delay;
    MulMono(1, delay, steps);
    assert timeout == delay * steps;
    Quotient(timeout, steps, delay, 0);
    MulMono(delay + 1, steps * SECOND, delay);
    assert delay * (steps * SECOND) == timeout * SECOND;
  }

  /** The window with its saturation, and the one input that breaks it. */
  lemma WindowIsIdeal(c: Config, timeout: int64)
    requires timeout > 0 && ResolvedDelay(c) + SECOND - 1 <= MAX_INT64
    ensures var delay := ResolvedDelay(c);
      && DelaySteps(delay) >= 1
      && (RolloutWindow(c, timeout) == Min(IdealAttempts(timeout, delay) * delay, MAX_INT64)
          <==> !(timeout == MAX_INT64 && DelaySteps(delay) == 1))
  {
    var delay := ResolvedDelay(c);
    var attempts := RolloutAttempts(c, timeout, delay);
    AttemptsAreIdeal(c, timeout, delay);
    MulSaturates(attempts, delay);
    StepsPositive(delay);
    hide MulDurationSaturating, RolloutAttempts, Ceil;
    if timeout == MAX_INT64 && DelaySteps(delay) == 1 {
      assert IdealAttempts(timeout, delay) == TWO_63;
      MulMono(1, delay, TWO_63);
      assert delay <= SECOND;
    }
  }

  /** In particular: more than the timeout, and at most one delay more. */
  lemma WindowCoversTimeout(c: Config, timeout: int64)
    requires timeout > 0 && ResolvedDelay(c) % SECOND == 0 && ResolvedDelay(c) + SECOND - 1 <= MAX_INT64
    requires !(timeout == MAX_INT64 && ResolvedDelay(c) == SECOND)
    ensures var window := RolloutWindow(c, timeout);
      && (window == MAX_INT64 || window > timeout * SECOND)
      && window <= timeout * SECOND + ResolvedDelay(c)
  {
    WindowIsIdeal(c, timeout);
    WholeSteps(ResolvedDelay(c));
    IdealBudget(timeout, ResolvedDelay(c));
  }

  /** The window never exceeds the timeout by more than one delay, for any delay and any timeout. */
  lemma WindowNeverExceeds(c: Config, timeout: int64)
    requires timeout > 0
    ensures RolloutWindow(c, timeout) <= timeout * SECOND + ResolvedDelay(c)
  {
    var delay := ResolvedDelay(c);
    if delay + SECOND - 1 <= MAX_INT64 {
      AttemptsAreIdeal(c, timeout, delay);
      IdealBudget(timeout, delay);
      var attempts := RolloutAttempts(c, timeout, delay);
      MulSaturates(attempts, delay);
      MulMono(1, timeout, SECOND);
      hide RolloutAttempts, MulDurationSaturating, IdealAttempts;
      if timeout == MAX_INT64 && DelaySteps(delay) == 1 {
        assert 1 * delay == delay;
      }
    }
  }

  /** An instance with no attempts configured polls for the historical window, rounded up to whole delays. */
  lemma DefaultWindow(c: Config, timeout: int64)
    requires timeout <= 0 && c.defaultAttempts == 0
    requires ResolvedDelay(c) + LEGACY_INTERVALS * SYNC_RETRY_DELAY - 1 <= MAX_INT64
    ensures LEGACY_INTERVALS * SYNC_RETRY_DELAY <= RolloutWindow(c, timeout)
    ensures RolloutWindow(c, timeout) < LEGACY_INTERVALS * SYNC_RETRY_DELAY + ResolvedDelay(c)
  {
    var window, delay := LEGACY_INTERVALS * SYNC_RETRY_DELAY, ResolvedDelay(c);
    CeilExactlyWhenItFits(window, delay);
    CeilBounds(window, delay);
    var attempts := RolloutAttempts(c, timeout, delay);
    MulSaturates(attempts, delay);
    var n := Ceil(window, delay);
    assert n >= 1 by { if n <= 0 { MulMono(n, 0, delay); } }
    assert (n - 1) * delay == n * delay - delay;
    hide Ceil, CeilDivDuration, MulDurationSaturating;
  }

  /** There is always a poll, so the window holds a delay at least. */
  lemma WindowHoldsDelay(c: Config, timeout: int64)
    ensures RolloutWindow(c, timeout) >= ResolvedDelay(c)
  {
    var delay := ResolvedDelay(c);
    MulSaturates(RolloutAttempts(c, timeout, delay), delay);
    MulMono(1, RolloutAttempts(c, timeout, delay), delay);
  }
}
