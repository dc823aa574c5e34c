/** Replicas taking one deployment over from each other: all of them measure from the instant it was accepted. */
module Handovers {
  import opened Common
  import opened MachineInts
  import opened Deadlines

  /** A task as its row keeps it: the instant it was accepted, and the timeout it was accepted with. */
  datatype Task = Task(accepted: Time, timeout: int64)

  /** Instants are subtracted with saturation; the stored creation time holds whole seconds. */
  function Elapsed(t: Task, now: Time): int64 {
    Max(-TWO_63, Min(now - t.accepted / SECOND * SECOND, MAX_INT64))
  }

  /** What is left of the task's window, and whether that is worth resuming. */
  function RemainingWindow(c: Config, t: Task, now: Time): (int64, bool) {
    var remaining := Signed64(RolloutWindow(c, t.timeout) - Elapsed(t, now));
    (remaining, remaining >= SECOND)
  }

  const TWO_53: int := 0x20_0000_0000_0000

  /** x is v as a 64-bit float holds it: the error is relative, and no integer is crossed. */
  ghost predicate Rounded(v: real, x: real) {
    && -v <= TWO_53 as real * (x - v) <= v
    && v.Floor as real <= x <= -((-v).Floor as real)
  }

  /** Whole seconds and a rounded fraction are added, and the sum is rounded again. */
  ghost predicate SecondsOf(remaining: int64, fraction: real, total: real) {
    && Rounded((remaining % SECOND) as real / SECOND as real, fraction)
    && Rounded((remaining / SECOND) as real + fraction, total)
  }

  /** The whole-second timeout a takeover hands on: the remainder as a float of seconds, less its fraction. */
  ghost predicate HandsOn(remaining: int64, seconds: int64) {
    exists fraction: real, total: real :: SecondsOf(remaining, fraction, total) && seconds == total.Floor
  }

  /** Up to here, about 97 days, the float tells two neighbouring nanoseconds apart. */
  const EXACT: Time := 0x80_0000 * SECOND

  lemma FractionIsShort(n: nat, fraction: real)
    requires n < SECOND && Rounded(n as real / SECOND as real, fraction)
    ensures 0.0 <= fraction <= 1.0
    ensures SECOND as real * fraction <= n as real + 0.000_001
  {
    var v := n as real / SECOND as real;
    assert SECOND as real * v == n as real;
    assert 0.0 <= v < 1.0;
    assert v.Floor == 0;
  }

  lemma SumTruncates(whole: nat, fraction: real, total: real)
    requires 0.0 <= fraction <= 1.0 && Rounded(whole as real + fraction, total)
    ensures whole <= total.Floor <= whole + 1
    ensures whole < 0x80_0000 && SECOND as real * fraction <= 999_999_999.000_001 ==> total.Floor == whole
  {
    var v := whole as real + fraction;
    assert v.Floor >= whole;
    assert -((-v).Floor) <= whole + 1;
  }

  /** The conversion drops the fraction, but from 97 days on it may round up to the next second instead. */
  lemma SecondsTruncate(remaining: int64, seconds: int64)
    requires remaining >= 0 && HandsOn(remaining, seconds)
    ensures remaining / SECOND <= seconds <= remaining / SECOND + 1
    ensures remaining < EXACT ==> seconds == remaining / SECOND
  {
    var fraction: real, total: real :| SecondsOf(remaining, fraction, total) && seconds == total.Floor;
    FractionIsShort(remaining % SECOND, fraction);
    SumTruncates(remaining / SECOND, fraction, total);
  }

  /** What the float conversion may add to a handed-on timeout. */
  function Slack(window: Time): Time {
    if window < EXACT then 0 else SECOND
  }

  lemma SecondsKept(remaining: int64, seconds: int64)
    requires remaining >= SECOND && HandsOn(remaining, seconds)
    ensures 1 <= seconds < MAX_INT64
    ensures remaining - SECOND < seconds * SECOND <= remaining + Slack(remaining)
  {
    SecondsTruncate(remaining, seconds);
    hide HandsOn;
    QuotientBounds(remaining, SECOND);
  }

  /**
   What remains is measured from the whole second before the acceptance, so that it is short of
   the truth by less than a second. A takeover is made exactly when that leaves a second: none is
   refused with two seconds left.
   */
  lemma RemainingIs(c: Config, t: Task, now: Time)
    requires t.accepted <= now
    ensures var (remaining, resumable) := RemainingWindow(c, t, now);
      var left := t.accepted + RolloutWindow(c, t.timeout) - now - t.accepted % SECOND;
      && (resumable <==> left >= SECOND)
      && (resumable ==> remaining == left)
  {
    WindowHoldsDelay(c, t.timeout);
    var window := RolloutWindow(c, t.timeout);
    hide RolloutWindow;
    QuotientBounds(t.accepted, SECOND);
    SignedFits(window - Elapsed(t, now));
    hide Signed64;
  }

  /** A budget of at least the seconds handed on, for a delay of whole seconds. */
  lemma BudgetCovers(c: Config, seconds: int64)
    requires seconds > 0 && ResolvedDelay(c) % SECOND == 0 && seconds < MAX_INT64
    ensures RolloutWindow(c, seconds) >= Min(seconds * SECOND, MAX_INT64 - SECOND)
  {
    var delay := ResolvedDelay(c);
    if delay + SECOND - 1 <= MAX_INT64 {
      WindowCoversTimeout(c, seconds);
    } else {
      WindowHoldsDelay(c, seconds);
    }
  }

  /**
   A takeover at any instant, by an instance with any configuration: the timeout handed on is
   never the zero that would mean a fresh default window, the resumed budget ends no later than
   the accepted one plus a single delay, and with a delay of whole seconds less than two seconds
   before it.
   */
  lemma HandoverKeepsDeadline(c: Config, t: Task, now: Time, seconds: int64)
    requires t.accepted <= now && RemainingWindow(c, t, now).1 && HandsOn(RemainingWindow(c, t, now).0, seconds)
    ensures seconds >= 1
    ensures var window := RolloutWindow(c, t.timeout);
      && now + RolloutWindow(c, seconds) <= t.accepted + window + ResolvedDelay(c) + Slack(window)
      && (ResolvedDelay(c) % SECOND == 0 ==> now + RolloutWindow(c, seconds) > t.accepted + window - 2 * SECOND)
  {
    hide RolloutWindow, RemainingWindow, HandsOn, ResolvedDelay;
    var (remaining, resumable) := RemainingWindow(c, t, now);
    RemainingIs(c, t, now);
    SecondsKept(remaining, seconds);
    WindowNeverExceeds(c, seconds);
    if ResolvedDelay(c) % SECOND == 0 { BudgetCovers(c, seconds); }
  }

  /** One replica's turn: when it took the task, with which timeout, and how long it took to start polling. */
  datatype Stint = Stint(config: Config, begun: Time, timeout: int64, setup: nat)

  /** The end of the turn's polling, however long it is left alone. */
  function Ends(s: Stint): Time {
    s.begun + s.setup + RolloutWindow(s.config, s.timeout)
  }

  /** The acceptor watches first; every later replica resumes what the row says, not what its predecessor was left. */
  ghost predicate Chain(t: Task, stints: seq<Stint>) {
    && stints != [] && stints[0].begun == t.accepted && stints[0].timeout == t.timeout
    && forall i :: 0 < i < |stints| ==> Resumes(t, stints[i - 1], stints[i])
  }

  ghost predicate Resumes(t: Task, before: Stint, s: Stint) {
    && before.begun <= s.begun
    && RemainingWindow(s.config, t, s.begun).1
    && HandsOn(RemainingWindow(s.config, t, s.begun).0, s.timeout)
  }

  lemma {:induction false} ChainRunsOn(t: Task, stints: seq<Stint>, i: nat)
    requires Chain(t, stints) && i < |stints|
    ensures t.accepted <= stints[i].begun
  {
    if i > 0 {
      ChainRunsOn(t, stints, i - 1);
      assert Resumes(t, stints[i - 1], stints[i]);
    }
  }

  /**
   However often a deployment changes hands, and whatever its replicas are configured with: every
   turn's polling ends at the deadline its own configuration would have given the acceptance, give
   or take a delay and two seconds, after the time it took to start.
   */
  lemma ChainKeepsDeadline(t: Task, stints: seq<Stint>, i: nat)
    requires Chain(t, stints) && i < |stints|
    ensures var s := stints[i];
      var window := RolloutWindow(s.config, t.timeout);
      && Ends(s) <= t.accepted + s.setup + window + (if i == 0 then 0 else ResolvedDelay(s.config) + Slack(window))
      && (i > 0 ==> s.timeout >= 1 && s.begun + SECOND <= t.accepted + window)
      && (ResolvedDelay(s.config) % SECOND == 0 ==> Ends(s) > t.accepted + s.setup + window - 2 * SECOND)
  {
    ChainRunsOn(t, stints, i);
    var s := stints[i];
    if i > 0 {
      assert Resumes(t, stints[i - 1], s);
      HandoverKeepsDeadline(s.config, t, s.begun, s.timeout);
      RemainingIs(s.config, t, s.begun);
    }
    hide RolloutWindow, RemainingWindow, HandsOn;
  }

  /** So the last instant any of them polls is bounded by the timeout, the longest delay and the longest start. */
  lemma ChainEnds(t: Task, stints: seq<Stint>, delay: Time, setup: nat, i: nat)
    requires Chain(t, stints) && t.timeout > 0 && i < |stints|
    requires forall s :: s in stints ==> ResolvedDelay(s.config) <= delay && s.setup <= setup
    ensures Ends(stints[i]) <= t.accepted + t.timeout * SECOND + 2 * delay + setup + Slack(t.timeout * SECOND + delay)
  {
    var s := stints[i];
    assert s in stints;
    ChainKeepsDeadline(t, stints, i);
    WindowNeverExceeds(s.config, t.timeout);
    hide RolloutWindow, Chain, ResolvedDelay;
  }
}
