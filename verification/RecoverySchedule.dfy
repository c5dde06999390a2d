/**
 The schedule on which an unresolved send is looked for again: pkg/connector/outbound.go
 (deferOutboundRecovery, outboundRecoveryBackoff). Durations and instants are nanoseconds; the row
 keeps its times in milliseconds.
 */
module RecoverySchedule {
  const MILLISECOND := 1_000_000
  const MINUTE := 60_000 * MILLISECOND
  const RECOVERY_RETRY := 5 * MINUTE
  const RECOVERY_RETRY_MAX := 60 * MINUTE
  const RECOVERY_MAX_AGE := 24 * 60 * MINUTE
  const MAX_DEFERRALS := 33

  // Five minutes, doubled with each attempt, up to an hour.
  function BaseDelay(attempt: int): (d: int)
    ensures RECOVERY_RETRY <= d <= RECOVERY_RETRY_MAX
    decreases attempt
  {
    if attempt <= 1 then RECOVERY_RETRY
    else if 2 * BaseDelay(attempt - 1) > RECOVERY_RETRY_MAX then RECOVERY_RETRY_MAX
    else 2 * BaseDelay(attempt - 1)
  }

  // The random number moves the delay by up to a fifth either way.
  predicate IsDelay(attempt: int, d: int) {
    4 * BaseDelay(attempt) <= 5 * d <= 6 * BaseDelay(attempt)
  }

  function Jittered(base: int, spread: int, random: int): int {
    if spread <= 0 then base else base - spread + random
  }

  lemma {:induction false} DelayStaysAtItsMaximum(from: int, attempt: int)
    requires from <= attempt && BaseDelay(from) == RECOVERY_RETRY_MAX
    ensures BaseDelay(attempt) == RECOVERY_RETRY_MAX
    decreases attempt - from
  {
    if from < attempt {
      DelayStaysAtItsMaximum(from, attempt - 1);
    }
  }

  method OutboundRecoveryBackoff(attempt: int, random: int) returns (d: int)
    requires 0 <= random <= 2 * (RECOVERY_RETRY_MAX / 5)
    ensures d == Jittered(BaseDelay(attempt), BaseDelay(attempt) / 5, random)
    ensures random <= 2 * (BaseDelay(attempt) / 5) ==> IsDelay(attempt, d)
  {
    var last := if attempt < 1 then 1 else attempt;
    var backoff := RECOVERY_RETRY;
    var i := 1;
    while i < last && backoff < RECOVERY_RETRY_MAX
      invariant 1 <= i <= last
      invariant backoff == BaseDelay(i)
      decreases last - i
    {
      backoff := backoff * 2;
      if backoff > RECOVERY_RETRY_MAX {
        backoff := RECOVERY_RETRY_MAX;
      }
      i := i + 1;
    }
    if i < last {
      DelayStaysAtItsMaximum(i, last);
    }
    d := Jittered(backoff, backoff / 5, random);
  }

  // The recovery fields of a row.
  class Send {
    var startedTS: int
    var attemptCount: nat
    var nextAttemptTS: int
    var unconfirmed: bool

    constructor (startedTS: int, nextAttemptTS: int)
      ensures State() == Recovery(startedTS, 0, nextAttemptTS, false)
    {
      this.startedTS, attemptCount, this.nextAttemptTS, unconfirmed := startedTS, 0, nextAttemptTS, false;
    }

    function State(): Recovery
      reads this
    {
      Recovery(startedTS, attemptCount, nextAttemptTS, unconfirmed)
    }

    // A send without its remote message is looked for again until it is a day old.
    method DeferRecovery(now: int, random: int)
      requires !unconfirmed && IsRandom(attemptCount + 1, random)
      modifies this
      ensures State() == Deferred(old(State()), Deferral(now, random))
    {
      if now >= startedTS * MILLISECOND + RECOVERY_MAX_AGE {
        unconfirmed := true;
      } else {
        var d := OutboundRecoveryBackoff(attemptCount + 1, random);
        nextAttemptTS := (now + d) / MILLISECOND;
        attemptCount := attemptCount + 1;
      }
    }
  }

  datatype Recovery = Recovery(startedTS: int, attemptCount: nat, nextAttemptTS: int, unconfirmed: bool)

  datatype Deferral = Deferral(now: int, random: int)

  predicate IsRandom(attempt: int, random: int) {
    0 <= random <= 2 * (BaseDelay(attempt) / 5)
  }

  function Deferred(r: Recovery, e: Deferral): Recovery {
    if e.now >= r.startedTS * MILLISECOND + RECOVERY_MAX_AGE then r.(unconfirmed := true)
    else
      var d := Jittered(BaseDelay(r.attemptCount + 1), BaseDelay(r.attemptCount + 1) / 5, e.random);
      r.(attemptCount := r.attemptCount + 1, nextAttemptTS := (e.now + d) / MILLISECOND)
  }

  // ---- Runs ----

  // The worker takes the row only when it is due, and never after it was given up.
  predicate MayDefer(r: Recovery, e: Deferral) {
    !r.unconfirmed && r.nextAttemptTS <= e.now / MILLISECOND && IsRandom(r.attemptCount + 1, e.random)
  }

  function After(r: Recovery, events: seq<Deferral>): Recovery {
    if events == [] then r else Deferred(After(r, events[..|events| - 1]), events[|events| - 1])
  }

  predicate IsRun(r: Recovery, events: seq<Deferral>) {
    events == [] || (IsRun(r, events[..|events| - 1])
      && MayDefer(After(r, events[..|events| - 1]), events[|events| - 1]))
  }

  // The least time, in milliseconds, that so many deferrals take.
  function LeastWait(deferrals: nat): int {
    var minutes := if deferrals == 0 then 0 else if deferrals == 1 then 4 else if deferrals == 2 then 12
                   else if deferrals == 3 then 28 else 60 + 48 * (deferrals - 4);
    60_000 * minutes
  }

  lemma LeastWaitGrows(n: nat)
    ensures LeastWait(n + 1) == LeastWait(n) + (BaseDelay(n + 1) - BaseDelay(n + 1) / 5) / MILLISECOND
    ensures BaseDelay(n + 1) % (5 * MILLISECOND) == 0
  {
    assert BaseDelay(2) == 10 * MINUTE;
    assert BaseDelay(3) == 20 * MINUTE;
    assert BaseDelay(4) == 40 * MINUTE;
    assert BaseDelay(5) == RECOVERY_RETRY_MAX;
    if n >= 4 {
      DelayStaysAtItsMaximum(5, n + 1);
    }
  }

  lemma {:induction false} DelayGrows(from: int, attempt: int)
    requires from <= attempt
    ensures BaseDelay(from) <= BaseDelay(attempt)
    decreases attempt - from
  {
    if from < attempt {
      DelayGrows(from, attempt - 1);
      assert BaseDelay(attempt - 1) <= BaseDelay(attempt);
    }
  }

  // A row that was deferred that often since its attempt count was first.
  predicate KeepsPace(r: Recovery, first: nat) {
    && first <= r.attemptCount <= first + MAX_DEFERRALS
    && r.nextAttemptTS >= r.startedTS + LeastWait(r.attemptCount - first)
  }

  lemma DeferralKeepsPace(r: Recovery, e: Deferral, first: nat)
    requires KeepsPace(r, first) && MayDefer(r, e)
    ensures KeepsPace(Deferred(r, e), first) && Deferred(r, e).startedTS == r.startedTS
    ensures r.attemptCount == first + MAX_DEFERRALS ==> Deferred(r, e).unconfirmed
  {
    var n := r.attemptCount - first;
    LeastWaitGrows(n);
    DelayGrows(n + 1, r.attemptCount + 1);
    LeastDelay(n + 1, r.attemptCount + 1, e.random);
    hide BaseDelay, LeastWait;
    assert e.now >= r.nextAttemptTS * MILLISECOND;
    WaitIsBounded(n);
  }

  // A later attempt waits at least as long as the shortest wait of an earlier one.
  lemma LeastDelay(from: int, attempt: int, random: int)
    requires BaseDelay(from) <= BaseDelay(attempt) && IsRandom(attempt, random)
    ensures Jittered(BaseDelay(attempt), BaseDelay(attempt) / 5, random) >= BaseDelay(from) - BaseDelay(from) / 5
  {
    hide BaseDelay;
  }

  lemma WaitIsBounded(n: nat)
    ensures n == MAX_DEFERRALS ==> LeastWait(n) * MILLISECOND >= RECOVERY_MAX_AGE
  {
  }

  /**
   However its attempts are timed and jittered, and however often it was attempted before, a send is
   deferred at most 33 times, and what comes next marks it as unconfirmed.
   */
  lemma {:induction false} DeferralsAreBounded(r: Recovery, events: seq<Deferral>)
    requires !r.unconfirmed && r.nextAttemptTS >= r.startedTS && IsRun(r, events)
    ensures After(r, events).attemptCount <= r.attemptCount + MAX_DEFERRALS
    ensures |events| > MAX_DEFERRALS ==> After(r, events).unconfirmed
    ensures |events| <= MAX_DEFERRALS + 1
  {
    CountDeferrals(r, events);
  }

  lemma {:induction false} CountDeferrals(r: Recovery, events: seq<Deferral>)
    requires !r.unconfirmed && r.nextAttemptTS >= r.startedTS && IsRun(r, events)
    ensures KeepsPace(After(r, events), r.attemptCount) && After(r, events).startedTS == r.startedTS
    ensures |events| == After(r, events).attemptCount - r.attemptCount + (if After(r, events).unconfirmed then 1 else 0)
  {
    if events != [] {
      var init := events[..|events| - 1];
      CountDeferrals(r, init);
      DeferralKeepsPace(After(r, init), events[|events| - 1], r.attemptCount);
    }
  }

  // ---- The bound is reached ----

  lemma NoWait()
    ensures LeastWait(0) == 0
  {
  }

  function EagerRun(startedTS: int, n: nat): seq<Deferral> {
    if n == 0 then [] else EagerRun(startedTS, n - 1) + [Deferral((startedTS + LeastWait(n - 1)) * MILLISECOND, 0)]
  }

  lemma EagerDeferral(startedTS: int, n: nat)
    requires n < MAX_DEFERRALS
    ensures var r, e := Recovery(startedTS, n, startedTS + LeastWait(n), false),
      Deferral((startedTS + LeastWait(n)) * MILLISECOND, 0);
            MayDefer(r, e) && Deferred(r, e) == Recovery(startedTS, n + 1, startedTS + LeastWait(n + 1), false)
  {
    LeastWaitGrows(n);
    var d := BaseDelay(n + 1) - BaseDelay(n + 1) / 5;
    assert d % MILLISECOND == 0;
    assert ((startedTS + LeastWait(n)) * MILLISECOND + d) / MILLISECOND == startedTS + LeastWait(n + 1);
  }

  lemma RunGrows(r: Recovery, events: seq<Deferral>, e: Deferral)
    ensures After(r, events + [e]) == Deferred(After(r, events), e)
    ensures IsRun(r, events + [e]) <==> IsRun(r, events) && MayDefer(After(r, events), e)
  {
    assert (events + [e])[..|events + [e]| - 1] == events;
  }

  /** A worker that is always prompt, with the shortest delays, does defer 33 times. */
  lemma {:induction false} BoundIsReached(startedTS: int, n: nat)
    requires n <= MAX_DEFERRALS
    ensures IsRun(Recovery(startedTS, 0, startedTS, false), EagerRun(startedTS, n))
    ensures After(Recovery(startedTS, 0, startedTS, false), EagerRun(startedTS, n)) == Recovery(startedTS, n,
      startedTS + LeastWait(n), false)
  {
    hide MayDefer, Deferred, LeastWait, BaseDelay;
    var r := Recovery(startedTS, 0, startedTS, false);
    if n == 0 {
      NoWait();
    } else {
      BoundIsReached(startedTS, n - 1);
      hide IsRun, After;
      EagerDeferral(startedTS, n - 1);
      var e := Deferral((startedTS + LeastWait(n - 1)) * MILLISECOND, 0);
      assert EagerRun(startedTS, n) == EagerRun(startedTS, n - 1) + [e];
      hide EagerRun;
      RunGrows(r, EagerRun(startedTS, n - 1), e);
    }
  }
}
