/**
 * The failed-login counter kept per e-mail address (for thirty minutes): five
 * failures lock the account, a successful login clears the record.
 */
module LoginLock {
  import opened Wrappers
  import opened JavaNumbers

  const LOCK_THRESHOLD: int := 5

  /** How long a record lives, in seconds. */
  const ATTEMPT_TTL_SECONDS: nat := 1800

  /** The boxed counter is a Java `int`; clock readings are parameters. */
  datatype LoginAttempt = LoginAttempt(email: string, count: Int32, lastAttemptAt: Option<int>)

  /** The builder's default: count 0 and no attempt time. */
  function Blank(email: string): (a: LoginAttempt)
    ensures a.email == email && a.count == 0 && a.lastAttemptAt.None?
    ensures !IsLocked(a)
  {
    LoginAttempt(email, 0, None)
  }

  /** `increment`: one more failure at `now`; the `int` counter wraps past its maximum. */
  function Increment(a: LoginAttempt, now: int): (r: LoginAttempt)
    ensures a.count < INT_MAX ==> r.count == a.count + 1
    ensures a.count == INT_MAX ==> r.count == INT_MIN
    ensures r.email == a.email && r.lastAttemptAt == Some(now)
  {
    LoginAttempt(a.email, Wrap32(a.count + 1), Some(now))
  }

  /** `isLocked`. */
  predicate IsLocked(a: LoginAttempt) {
    a.count >= LOCK_THRESHOLD
  }

  /** `reset`: count 0 and no attempt time, hence unlocked. */
  function Reset(a: LoginAttempt): (r: LoginAttempt)
    ensures r.email == a.email && r.count == 0 && r.lastAttemptAt.None?
    ensures !IsLocked(r)
  {
    LoginAttempt(a.email, 0, None)
  }

  /** `createNew`: the record of a first failure. */
  function CreateNew(email: string, now: int): (a: LoginAttempt)
    ensures a.email == email && a.count == 1 && a.lastAttemptAt == Some(now)
    ensures !IsLocked(a)
  {
    LoginAttempt(email, 1, Some(now))
  }

  /** A further failure never unlocks, as long as the counter does not wrap. */
  lemma IncrementKeepsLock(a: LoginAttempt, now: int)
    requires IsLocked(a) && a.count < INT_MAX
    ensures IsLocked(Increment(a, now))
  {
  }

  /** The lock engages exactly at the fifth counted failure. */
  lemma LockThreshold(email: string, now: int)
    ensures !IsLocked(Increment(Increment(Increment(CreateNew(email, now), now), now), now))
    ensures IsLocked(Increment(Increment(Increment(Increment(CreateNew(email, now), now), now), now), now))
  {
  }

  /** The largest count wraps to a negative one, which reads as unlocked. */
  lemma WrapUnlocks(a: LoginAttempt, now: int)
    requires a.count == INT_MAX
    ensures IsLocked(a) && !IsLocked(Increment(a, now))
  {
  }

  /** Whether the login flow refuses before checking the password: a stored record that is locked. */
  predicate LoginRefused(stored: Option<LoginAttempt>) {
    stored.Some? && IsLocked(stored.value)
  }

  /**
   * The login flow's `incrementLoginAttempt` as written: a missing record is
   * replaced by `createNew` (count 1) before the zero test, so it is then
   * incremented as well.
   */
  function RecordFailureAsWritten(stored: Option<LoginAttempt>, email: string, now: int): (r: LoginAttempt)
    ensures stored.None? ==> r.count == 2
    ensures stored.Some? && stored.value.count == 0 ==> r == CreateNew(email, now)
    ensures stored.Some? && stored.value.count != 0 ==> r == Increment(stored.value, now)
  {
    var attempt := if stored.Some? then stored.value else CreateNew(email, now);
    if attempt.count == 0 then CreateNew(email, now) else Increment(attempt, now)
  }

  /** The evidently intended counting: the first failure counts 1, every later one adds 1. */
  function RecordFailure(stored: Option<LoginAttempt>, email: string, now: int): (r: LoginAttempt)
    ensures stored.None? || stored.value.count == 0 ==> r == CreateNew(email, now)
    ensures stored.Some? && stored.value.count != 0 ==> r == Increment(stored.value, now)
  {
    if stored.None? || stored.value.count == 0 then CreateNew(email, now) else Increment(stored.value, now)
  }

  /** The stored record after `n` consecutive wrong passwords for an address with no record, as written. */
  function FailuresAsWritten(n: nat, email: string, now: int): Option<LoginAttempt> {
    if n == 0 then None else Some(RecordFailureAsWritten(FailuresAsWritten(n - 1, email, now), email, now))
  }

  /** The same with the intended counting. */
  function Failures(n: nat, email: string, now: int): Option<LoginAttempt> {
    if n == 0 then None else Some(RecordFailure(Failures(n - 1, email, now), email, now))
  }

  /** As written, every failure is counted once too often. */
  lemma {:induction false} AsWrittenCountsOneExtra(n: nat, email: string, now: int)
    requires 0 < n < INT_MAX
    ensures FailuresAsWritten(n, email, now).Some?
    ensures FailuresAsWritten(n, email, now).value.count == n + 1
  {
    if n > 1 {
      AsWrittenCountsOneExtra(n - 1, email, now);
    }
  }

  /** As written, four wrong passwords already refuse the next login. */
  lemma AsWrittenLocksAfterFour(email: string, now: int)
    ensures !LoginRefused(FailuresAsWritten(3, email, now))
    ensures LoginRefused(FailuresAsWritten(4, email, now))
  {
    AsWrittenCountsOneExtra(3, email, now);
    AsWrittenCountsOneExtra(4, email, now);
  }

  /** With the intended counting, the count is the number of failures. */
  lemma {:induction false} FailuresCounted(n: nat, email: string, now: int)
    requires 0 < n <= INT_MAX
    ensures Failures(n, email, now).Some? && Failures(n, email, now).value.count == n
  {
    if n > 1 {
      FailuresCounted(n - 1, email, now);
    }
  }

  /** With the intended counting, the login is refused exactly from the fifth failure on. */
  lemma RefusedFromFifthFailure(n: nat, email: string, now: int)
    requires n <= INT_MAX
    ensures LoginRefused(Failures(n, email, now)) <==> n >= 5
  {
    if n > 0 {
      FailuresCounted(n, email, now);
    }
  }
}
