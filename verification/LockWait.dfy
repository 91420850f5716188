/** Taking the update lock within a bounded wait, whatever its holder does.

    Durations are nanoseconds. What the file system and the clock answer is
    handed in: `openable(n)` for the n-th opening of the lock file, `attempt(n)`
    for the n-th attempt to lock it, `clock(n)` for the time elapsed at the n-th
    attempt found busy, `named(n)` for the n-th check of the lock's name. */
module LockWait {
  import opened Options

  const LOCK_RETRY: nat := 5_000_000

  const LOCK_ATTEMPTS: nat := 4

  /** `Failed` is an error other than the lock being held. */
  datatype Attempt = Taken | Busy | Failed

  datatype Outcome = Held | LockBusy | KeptBeingReplaced | OpenFailed | LockFailed

  function NextLockRetry(elapsed: nat, wait: nat): Option<nat> {
    if elapsed < wait then Some(if LOCK_RETRY < wait - elapsed then LOCK_RETRY else wait - elapsed) else None
  }

  /** Each sleep advances the clock by at least its pause: five milliseconds, or
      what is left of the wait where that is less. */
  ghost predicate SleepsTakeTime(clock: nat -> nat, wait: nat) {
    forall n: nat :: clock(n) < wait ==>
                       clock(n) + (if wait - clock(n) < 5_000_000 then wait - clock(n) else 5_000_000) <= clock(n + 1)
  }

  /** What the pauses so far amount to. */
  ghost predicate Accounted(clock: nat -> nat, wait: nat, sleeps: nat, paused: nat) {
    && paused <= wait && paused <= sleeps * 5_000_000
    && (clock(sleeps) < wait ==> sleeps * 5_000_000 <= paused <= clock(sleeps))
    && (sleeps > 0 ==> (sleeps - 1) * 5_000_000 < wait)
  }

  lemma AccountSleep(clock: nat -> nat, wait: nat, sleeps: nat, paused: nat, pause: nat)
    requires SleepsTakeTime(clock, wait) && Accounted(clock, wait, sleeps, paused)
    requires NextLockRetry(clock(sleeps), wait) == Some(pause)
    ensures pause <= 5_000_000
    ensures Accounted(clock, wait, sleeps + 1, paused + pause)
  {
    assert (sleeps + 1) * 5_000_000 == sleeps * 5_000_000 + 5_000_000;
    assert clock(sleeps) + pause <= clock(sleeps + 1);
  }

  /** One lock file: attempts until it is taken, an attempt fails, or the wait is
      spent. Attempt and sleep numbers go on counting from `tries0` and
      `sleeps0`. */
  method TakeLockWithin(attempt: nat -> Attempt, clock: nat -> nat, wait: nat,
                        tries0: nat, sleeps0: nat, paused0: nat)
    returns (last: Attempt, tries: nat, sleeps: nat, paused: nat)
    requires SleepsTakeTime(clock, wait) && Accounted(clock, wait, sleeps0, paused0)
    ensures Accounted(clock, wait, sleeps, paused)
    ensures tries - tries0 == sleeps - sleeps0 + 1
    ensures sleeps0 <= sleeps && 0 <= paused - paused0 <= (sleeps - sleeps0) * 5_000_000
    ensures forall n :: tries0 <= n < tries - 1 ==> attempt(n) == Busy
    ensures last == attempt(tries - 1)
    ensures last.Busy? ==> clock(sleeps) >= wait
  {
    tries, sleeps, paused := tries0, sleeps0, paused0;
    while true
      invariant Accounted(clock, wait, sleeps, paused)
      invariant tries - tries0 == sleeps - sleeps0 >= 0
      invariant 0 <= paused - paused0 <= (sleeps - sleeps0) * 5_000_000
      invariant forall n :: tries0 <= n < tries ==> attempt(n) == Busy
      decreases wait + 1 - paused, wait - clock(sleeps)
    {
      tries := tries + 1;
      match attempt(tries - 1) {
        case Taken =>
          return Taken, tries, sleeps, paused;
        case Failed =>
          return Failed, tries, sleeps, paused;
        case Busy =>
      }
      match NextLockRetry(clock(sleeps), wait) {
        case None =>
          return Busy, tries, sleeps, paused;
        case Some(pause) =>
          AccountSleep(clock, wait, sleeps, paused, pause);
          sleeps, paused := sleeps + 1, paused + pause;
      }
    }
  }

  /** The whole acquisition, re-openings of a replaced lock included: the wait
      is counted once, so the pauses never exceed it, there are at most
      ceil(wait / 5 ms) of them, none longer than 5 ms, and at most four more
      tries than sleeps. */
  method Acquire(openable: nat -> bool, attempt: nat -> Attempt, clock: nat -> nat, named: nat -> bool, wait: nat)
    returns (outcome: Outcome, tries: nat, sleeps: nat, paused: nat, opens: nat)
    requires SleepsTakeTime(clock, wait)
    ensures paused <= wait && paused <= sleeps * 5_000_000
    ensures sleeps <= (wait + 4_999_999) / 5_000_000
    ensures 1 <= opens <= 4
    ensures tries == sleeps + opens - (if outcome.OpenFailed? then 1 else 0)
    ensures outcome.OpenFailed? <==> !openable(opens - 1)
    ensures outcome.Held? <==> openable(opens - 1) && attempt(tries - 1) == Taken && named(opens - 1)
    ensures outcome.LockBusy? <==> openable(opens - 1) && attempt(tries - 1) == Busy
    ensures outcome.LockFailed? <==> openable(opens - 1) && attempt(tries - 1) == Failed
    ensures outcome.LockBusy? ==> clock(sleeps) >= wait
    ensures outcome.KeptBeingReplaced? ==> opens == 4
    ensures forall n :: 0 <= n < opens - 1 ==> openable(n) && !named(n)
  {
    tries, sleeps, paused, opens := 0, 0, 0, 0;
    while opens < LOCK_ATTEMPTS
      invariant Accounted(clock, wait, sleeps, paused)
      invariant opens <= LOCK_ATTEMPTS && tries == sleeps + opens
      invariant opens > 0 ==> attempt(tries - 1) == Taken
      invariant forall n :: 0 <= n < opens ==> openable(n) && !named(n)
    {
      opens := opens + 1;
      if !openable(opens - 1) {
        SleepsBound(clock, wait, sleeps, paused);
        return OpenFailed, tries, sleeps, paused, opens;
      }
      var last;
      last, tries, sleeps, paused := TakeLockWithin(attempt, clock, wait, tries, sleeps, paused);
      SleepsBound(clock, wait, sleeps, paused);
      if last != Taken {
        return if last.Busy? then LockBusy else LockFailed, tries, sleeps, paused, opens;
      }
      if named(opens - 1) {
        return Held, tries, sleeps, paused, opens;
      }
    }
    SleepsBound(clock, wait, sleeps, paused);
    outcome := KeptBeingReplaced;
  }

  lemma SleepsBound(clock: nat -> nat, wait: nat, sleeps: nat, paused: nat)
    requires Accounted(clock, wait, sleeps, paused)
    ensures sleeps <= (wait + 4_999_999) / 5_000_000
  {
  }
}
