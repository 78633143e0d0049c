/**
 When a Relay capability is looked at again: the retry delay, and the loop that uses it.
 Times are milliseconds; the jitter sample is any number.
 */
module Renewal {
  import opened Options
  import opened Capability

  const WINDOW := 30 * 86_400_000
  const MAX_CHECK_INTERVAL := 24 * 60 * 60_000
  const NORMAL_RETRY := 12 * 60 * 60_000
  const URGENT_RETRY := 60 * 60_000
  const CRITICAL_RETRY := 5 * 60_000
  const DEADLINE_SAFETY := 45_000
  const NEAR_DEADLINE_RETRY := 1_000

  /** `remaining` is absent for capabilities that are not provisioned. */
  datatype Status = Status(provisioned: bool, remaining: Option<int>, due: bool)

  function Min(a: int, b: int): int { if a <= b then a else b }
  function Max(a: int, b: int): int { if a >= b then a else b }

  /** inspectRelayCapabilityRenewal. */
  function Inspect(t: Token, now: int): Status {
    if !t.payload.Provisioned? || PrincipalOf(t.payload) != User then Status(false, None, false)
    else
      var remaining := EffectiveExpiration(t.payload).value - now;
      Status(true, Some(remaining), remaining <= WINDOW)
  }

  function Tier(status: Option<Status>): nat {
    if status.None? || !status.value.provisioned || status.value.remaining.None? then MAX_CHECK_INTERVAL
    else
      var remaining := status.value.remaining.value;
      if !status.value.due then Max(CRITICAL_RETRY, Min(MAX_CHECK_INTERVAL, remaining - WINDOW))
      else if remaining > 7 * 86_400_000 then NORMAL_RETRY
      else if remaining > 86_400_000 then URGENT_RETRY
      else CRITICAL_RETRY
  }

  function Jittered(maximum: nat, sample: Option<nat>): int {
    if sample.None? then maximum else maximum - sample.value % Max(1, maximum / 4)
  }

  /** relayCapabilityRenewalRetryDelay. */
  function RetryDelay(status: Option<Status>, sample: Option<nat>, afterAttempt: bool): int {
    var delay := Jittered(Tier(status), sample);
    if status.None? || status.value.remaining.None? then delay
    else
      var remaining := status.value.remaining.value;
      if remaining <= 0 then if afterAttempt then delay else 0
      else
        var bound := Max(0, remaining - DEADLINE_SAFETY);
        if bound > 0 then Min(delay, bound)
        else if afterAttempt then Min(NEAR_DEADLINE_RETRY, Max(0, remaining - 1))
        else 0
  }

  /** The status of a provisioned capability with `remaining` left. */
  function Left(remaining: int): Option<Status> { Some(Status(true, Some(remaining), remaining <= WINDOW)) }

  /** Jitter takes off less than a quarter. */
  lemma JitterBounds(maximum: nat, sample: Option<nat>)
    requires maximum >= 4
    ensures 3 * maximum < 4 * Jittered(maximum, sample) <= 4 * maximum
  {
  }

  /** A check scheduled with more than 45 seconds left comes with at least 45 seconds left. */
  lemma ChecksKeepTheSafetyMargin(remaining: int, sample: Option<nat>, afterAttempt: bool)
    requires remaining > DEADLINE_SAFETY
    ensures remaining - RetryDelay(Left(remaining), sample, afterAttempt) >= DEADLINE_SAFETY
    ensures RetryDelay(Left(remaining), sample, afterAttempt) > 0
  {
  }

  /** After an attempt the loop never spins, except in the very last millisecond. */
  lemma SpinsOnlyAtTheEnd(remaining: int, sample: Option<nat>)
    ensures RetryDelay(Left(remaining), sample, true) >= 0
    ensures RetryDelay(Left(remaining), sample, true) == 0 <==> remaining == 1
  {
  }

  /** A failing renewal is tried again before the capability expires. */
  lemma RetriesBeforeExpiry(remaining: int, sample: Option<nat>, afterAttempt: bool)
    requires remaining > 0
    ensures RetryDelay(Left(remaining), sample, afterAttempt) < remaining
  {
  }

  /** The tiers, in numbers: between 30 and 7 days left the next check comes within 9 to 12
      hours, down to a day within 45 to 60 minutes, in the last day within 5 minutes; with more
      than 30 days left within a day, and within the time to the window if that is shorter but
      more than 5 minutes. */
  lemma DelayByTier(remaining: int, sample: Option<nat>, afterAttempt: bool)
    ensures var d := RetryDelay(Left(remaining), sample, afterAttempt);
            && (604_800_000 < remaining <= 2_592_000_000 ==> 32_400_000 < d <= 43_200_000)
            && (86_400_000 < remaining <= 604_800_000 ==> 2_700_000 < d <= 3_600_000)
            && (remaining <= 86_400_000 ==> 0 <= d <= 300_000)
            && (345_000 <= remaining <= 86_400_000 ==> 225_000 < d <= 300_000)
            && (remaining > 2_678_400_000 ==> 64_800_000 < d <= 86_400_000)
            && (2_592_300_000 < remaining <= 2_678_400_000 ==>
                  3 * (remaining - 2_592_000_000) < 4 * d <= 4 * (remaining - 2_592_000_000))
            && (2_592_000_000 < remaining <= 2_592_300_000 ==> 225_000 < d <= 300_000)
  {
    JitterBounds(Tier(Left(remaining)), sample);
  }

  /** The last minutes: never past the safety margin while there is one, then at once, or a
      second later after an attempt; after expiry at once, or within 5 minutes. */
  lemma DelayAtTheEnd(remaining: int, sample: Option<nat>)
    ensures 45_000 < remaining < 270_000 ==> RetryDelay(Left(remaining), sample, true) == remaining - 45_000
                                          == RetryDelay(Left(remaining), sample, false)
    ensures remaining <= 45_000 ==> RetryDelay(Left(remaining), sample, false) == 0
    ensures 0 < remaining <= 45_000 ==> RetryDelay(Left(remaining), sample, true) == Min(1_000, remaining - 1)
    ensures remaining <= 0 ==> 225_000 < RetryDelay(Left(remaining), sample, true) <= 300_000
  {
    JitterBounds(Tier(Left(remaining)), sample);
  }

  /** Without jitter the delay is the whole tier; where nothing is known or provisioned, it is a
      day, less up to a quarter. */
  lemma DelayWithout(status: Option<Status>, sample: Option<nat>, afterAttempt: bool)
    requires status.Some? ==> status.value == Status(false, None, false)
    ensures 64_800_000 < RetryDelay(status, sample, afterAttempt) <= 86_400_000
    ensures RetryDelay(status, None, afterAttempt) == 86_400_000
    ensures RetryDelay(Left(1_728_000_000), None, afterAttempt) == 43_200_000
    ensures RetryDelay(Left(172_800_000), None, afterAttempt) == 3_600_000
    ensures RetryDelay(Left(43_260_000), None, afterAttempt) == 300_000
  {
    JitterBounds(Tier(status), sample);
  }

  /** Two samples that differ by a quarter of the tier, or by nothing, give the same delay, and
      the delays of samples below it are all different. */
  lemma JitterSpreads(maximum: nat, x: nat, y: nat)
    requires maximum >= 4 && x < maximum / 4 && y < maximum / 4
    ensures Jittered(maximum, Some(x)) == maximum - x && (Jittered(maximum, Some(x)) == Jittered(maximum, Some(y)) <==> x == y)
  {
    SmallRemainder(x, maximum / 4);
    SmallRemainder(y, maximum / 4);
  }

  lemma SmallRemainder(x: nat, q: nat)
    requires x < q
    ensures x % q == x
  {
  }

  /** The inspection of a provisioned user capability is what is left of its earliest
      expiration; others are not provisioned. */
  lemma InspectionIsWhatIsLeft(t: Token, now: int)
    ensures (t.payload.Provisioned? && (t.payload.version != 4 || t.payload.principal == User)) ==>
              (var p := t.payload;
               var earliest := if p.expiresAt.Some? && p.expiresAt.value < p.provisionerExpiresAt then p.expiresAt.value else p.provisionerExpiresAt;
               Some(Inspect(t, now)) == Left(earliest - now))
    ensures !(t.payload.Provisioned? && (t.payload.version != 4 || t.payload.principal == User)) ==>
              Inspect(t, now) == Status(false, None, false)
  {
  }

  /** What is left at the next check. */
  function Next(remaining: int, sample: Option<nat>): int {
    remaining - RetryDelay(Left(remaining), sample, true)
  }

  function Later(samples: nat -> Option<nat>): nat -> Option<nat> { (k: nat) => samples(k + 1) }

  /** What is left at the n-th check, when timers are on time and nothing is renewed. */
  function LeftAt(remaining: int, samples: nat -> Option<nat>, n: nat): int
    decreases n
  {
    if n == 0 then remaining else LeftAt(Next(remaining, samples(0)), Later(samples), n - 1)
  }

  /** Each check takes the next sample. */
  lemma {:induction false} ChecksFollow(remaining: int, samples: nat -> Option<nat>, n: nat)
    ensures LeftAt(remaining, samples, n + 1) == Next(LeftAt(remaining, samples, n), samples(n))
    decreases n
  {
    if n == 0 {
      assert LeftAt(remaining, samples, 1) == LeftAt(Next(remaining, samples(0)), Later(samples), 0);
    } else {
      ChecksFollow(Next(remaining, samples(0)), Later(samples), n - 1);
    }
  }

  /** One check of a capability that is not yet due comes closer to the window by more than
      three minutes, and does not overshoot it by more than five. */
  lemma NotDueYet(remaining: int, sample: Option<nat>, afterAttempt: bool)
    requires remaining > WINDOW
    ensures var next := remaining - RetryDelay(Left(remaining), sample, afterAttempt);
            WINDOW - CRITICAL_RETRY <= next < remaining - 180_000
  {
  }

  /** The n-th check is the first one within the window. */
  ghost predicate FirstDue(remaining: int, samples: nat -> Option<nat>, n: nat) {
    LeftAt(remaining, samples, n) <= WINDOW && forall k: nat :: k < n ==> LeftAt(remaining, samples, k) > WINDOW
  }

  lemma LaterIsFirstDue(remaining: int, samples: nat -> Option<nat>, n: nat)
    requires remaining > WINDOW && FirstDue(Next(remaining, samples(0)), Later(samples), n)
    ensures FirstDue(remaining, samples, n + 1)
  {
  }

  /** Any schedule of samples reaches the window after finitely many checks: fewer than one
      for every three minutes by which it was early, and one more. */
  lemma {:induction false} ReachesTheWindow(remaining: int, samples: nat -> Option<nat>) returns (n: nat)
    requires remaining >= WINDOW - CRITICAL_RETRY
    ensures FirstDue(remaining, samples, n)
    ensures LeftAt(remaining, samples, n) >= WINDOW - CRITICAL_RETRY
    ensures 180_000 * n <= Max(0, remaining - WINDOW + 180_000)
    decreases Max(0, remaining - WINDOW)
  {
    if remaining <= WINDOW { return 0; }
    NotDueYet(remaining, samples(0), true);
    n := ReachesTheWindow(Next(remaining, samples(0)), Later(samples));
    LaterIsFirstDue(remaining, samples, n);
    n := n + 1;
  }

  /** A capability with more than 30 days left gets its first check within the window after
      finitely many checks, and with at least 30 days less 5 minutes left. */
  lemma FirstCheckInWindow(remaining: int, samples: nat -> Option<nat>)
    requires remaining > WINDOW
    ensures exists n: nat ::
              && FirstDue(remaining, samples, n)
              && LeftAt(remaining, samples, n) >= WINDOW - CRITICAL_RETRY
              && 180_000 * n <= remaining - WINDOW + 180_000
  {
    var n := ReachesTheWindow(remaining, samples);
  }

  /** The renewal loop: until it is closed it is either checking or has its timer set. */
  class RenewalLoop {
    var stopped: bool
    var timer: Option<int>
    var running: bool
    var activeCapability: Option<Token>

    ghost predicate Valid()
      reads this
    {
      if stopped then timer.None? else running <==> timer.None?
    }

    constructor (initial: Option<Token>, now: int, sample: Option<nat>)
      ensures Valid() && !stopped && !running && activeCapability == initial
      ensures timer == Some(now + RetryDelay(if initial.Some? then Some(Inspect(initial.value, now)) else None,
                                             if initial.Some? then sample else None, false))
    {
      stopped, running, activeCapability := false, false, initial;
      var status := if initial.Some? then Some(Inspect(initial.value, now)) else None;
      timer := Some(now + RetryDelay(status, if initial.Some? then sample else None, false));
    }

    method Schedule(at: int)
      requires stopped || !running
      modifies this`timer
      ensures stopped ==> timer == old(timer)
      ensures !stopped ==> timer == Some(at)
    {
      if stopped { return; }
      timer := Some(at);
    }

    /** The timer fires, or a check is asked for: one check at a time. */
    method CheckNow() returns (begins: bool)
      requires Valid()
      modifies this`timer, this`running
      ensures Valid()
      ensures begins <==> !old(stopped) && !old(running)
      ensures running <==> old(running) || begins
    {
      if stopped || running { return false; }
      timer := None;
      running := true;
      return true;
    }

    /** The end of a check.  `renewed` is the capability it found in force, if it got that far;
        the next delay counts what is then left. */
    method Finish(renewed: Option<Token>, now: int, sample: Option<nat>)
      requires Valid() && running
      modifies this
      ensures Valid() && !running && stopped == old(stopped)
      ensures activeCapability == if renewed.Some? && !stopped then renewed else old(activeCapability)
      ensures !stopped ==>
                timer == Some(now + RetryDelay(if activeCapability.Some? then Some(Inspect(activeCapability.value, now)) else None,
                                               if activeCapability.Some? then sample else None, true))
    {
      if renewed.Some? && !stopped { activeCapability := renewed; }
      var status := if activeCapability.Some? then Some(Inspect(activeCapability.value, now)) else None;
      running := false;
      Schedule(now + RetryDelay(status, if activeCapability.Some? then sample else None, true));
    }

    method Close()
      requires Valid()
      modifies this
      ensures Valid() && stopped && timer.None? && running == old(running)
    {
      stopped := true;
      timer := None;
    }
  }
}
