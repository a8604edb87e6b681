/**
 Password-login lockout. Failures are counted per normalized email; after five free failures each
 further one locks the email for a duration that doubles up to an hour.

 Times are nanoseconds since Go's zero time; 0 is the unset time.
 */
module LoginThrottle {
  import opened AuthStore
  import opened Text
  import opened Wrappers

  const MINUTE: nat := 60_000_000_000
  const FREE_FAILURES: nat := 5
  const MAX_LOCK: nat := 60 * MINUTE

  type Throttles = map<string, Throttle>

  // ---------------------------------------------------------------------------------------------
  // Lock durations

  function Pow2(n: nat): (r: nat)
    ensures r >= 1
  {
    if n == 0 then 1 else 2 * Pow2(n - 1)
  }

  /** Nothing for the first five failures, then 1, 2, 4, ... minutes, capped at an hour. */
  function LockDuration(failedCount: int): nat {
    if failedCount <= FREE_FAILURES then 0
    else if MINUTE * Pow2(failedCount - 6) <= MAX_LOCK then MINUTE * Pow2(failedCount - 6)
    else MAX_LOCK
  }

  lemma {:induction false} Pow2Grows(m: nat, n: nat)
    requires m <= n
    ensures Pow2(m) <= Pow2(n)
  {
    if m < n { Pow2Grows(m, n - 1); }
  }

  /** The doubling loop stops at the cap before the 64-bit duration can overflow. */
  method LoginLockDuration(failedCount: int) returns (duration: nat)
    ensures duration == LockDuration(failedCount)
  {
    if failedCount <= FREE_FAILURES {
      return 0;
    }
    duration := MINUTE;
    var rounds := failedCount - FREE_FAILURES - 1;
    for i := 0 to rounds
      invariant duration == MINUTE * Pow2(i) <= MAX_LOCK
    {
      if duration >= MAX_LOCK / 2 {
        Pow2Grows(i + 1, rounds);
        return MAX_LOCK;
      }
      duration := duration * 2;
    }
    if duration > MAX_LOCK {
      return MAX_LOCK;
    }
  }

  // ---------------------------------------------------------------------------------------------
  // One login attempt

  /** How an attempt that is not locked out ends. */
  datatype Check =
    | TurnstileFailed            // before the password is looked at
    | NoSuchUser | BadPassword   // counted; BadPassword includes inactive users
    | HashUnreadable             // the stored hash cannot be parsed
    | CodeMissing                // the password matched, the second factor is still owed
    | CodeRejected               // the second factor failed
    | SessionFailed              // a later store error
    | SignedIn

  /** The clock is read when the lock is checked and again when a failure is stored. */
  datatype Attempt = Attempt(email: string, checkedAt: nat, storedAt: nat, check: Check)

  predicate Locked(ts: Throttles, email: string, now: nat) {
    ThrottleOf(ts, email).lockedUntil > now
  }

  function AfterFailure(t: Throttle, email: string, now: nat): Throttle {
    var n := t.failedCount + 1;
    Throttle(email, n, if LockDuration(n) > 0 then now + LockDuration(n) else 0, now)
  }

  /** Is the attempt let through to its checks? A blank address is refused before anything is looked up. */
  predicate Admitted(ts: Throttles, a: Attempt) {
    Trim(a.email) != "" && !Locked(ts, a.email, a.checkedAt)
  }

  /** The throttle table after an attempt. */
  function Step(ts: Throttles, a: Attempt): Throttles {
    if !Admitted(ts, a) then ts
    else match a.check
      case NoSuchUser | BadPassword => ts[a.email := AfterFailure(ThrottleOf(ts, a.email), a.email, a.storedAt)]
      case CodeMissing | SignedIn => ts - {a.email}
      case _ => ts
  }

  /** Does the attempt record a failure? */
  predicate Fails(ts: Throttles, a: Attempt) {
    Admitted(ts, a) && (a.check.NoSuchUser? || a.check.BadPassword?)
  }

  predicate Resets(ts: Throttles, a: Attempt) {
    Admitted(ts, a) && (a.check.CodeMissing? || a.check.SignedIn?)
  }

  /** The email's throttle is as it was. */
  ghost predicate SameThrottle(before: Throttles, after: Throttles, email: string) {
    (email in after <==> email in before) && (email in before ==> after[email] == before[email])
  }

  /** The throttle after the n-th failure, recorded at `now`: free up to five, then locked for its duration. */
  ghost predicate IsFailure(t: Throttle, email: string, n: int, now: nat) {
    && t.email == email && t.failedCount == n && t.updatedAt == now
    && t.lockedUntil == if n <= 5 then 0 else now + LockDuration(n)
  }

  /**
   What an attempt does to the table. Other emails keep their throttles. A wrong password or an unknown user
   is one more failure of the email, unless it is locked; a right password clears it; all else keeps it.
   */
  ghost predicate Means(before: Throttles, a: Attempt, after: Throttles) {
    var tried := Trim(a.email) != "" && !(a.email in before && before[a.email].lockedUntil > a.checkedAt);
    && (forall email :: email != a.email ==> SameThrottle(before, after, email))
    && if tried && (a.check == NoSuchUser || a.check == BadPassword) then
         a.email in after
         && IsFailure(after[a.email], a.email,
                      (if a.email in before then before[a.email].failedCount else 0) + 1, a.storedAt)
       else if tried && (a.check == SignedIn || a.check == CodeMissing) then a.email !in after
       else SameThrottle(before, after, a.email)
  }

  lemma StepMeans(ts: Throttles, a: Attempt)
    ensures Means(ts, a, Step(ts, a))
  {}

  datatype LoginResult = LockedOut(retryAfter: nat) | Refused | ChallengeIssued | LoggedIn

  class Service {
    const store: MemoryStore

    constructor (store: MemoryStore)
      ensures this.store == store
    {
      this.store := store;
    }

    method Login(a: Attempt) returns (r: LoginResult)
      modifies store`loginThrottles
      ensures store.loginThrottles == Step(old(store.loginThrottles), a)
      ensures r.LockedOut? <==> Trim(a.email) != "" && Locked(old(store.loginThrottles), a.email, a.checkedAt)
      ensures r.LockedOut? ==>
                r.retryAfter > 0 && a.checkedAt + r.retryAfter == ThrottleOf(store.loginThrottles, a.email).lockedUntil
      ensures r == if Trim(a.email) == "" then Refused
                   else if Locked(old(store.loginThrottles), a.email, a.checkedAt) then
                     LockedOut(old(store.loginThrottles)[a.email].lockedUntil - a.checkedAt)
                   else if a.check == SignedIn then LoggedIn
                   else if a.check == CodeMissing then ChallengeIssued
                   else Refused
      ensures Means(old(store.loginThrottles), a, store.loginThrottles)
    {
      StepMeans(store.loginThrottles, a);
      if Trim(a.email) == "" {
        return Refused;
      }
      var throttle := store.LoginThrottle(a.email);
      if throttle.lockedUntil > a.checkedAt {
        return LockedOut(throttle.lockedUntil - a.checkedAt);
      }
      match a.check
      case NoSuchUser | BadPassword =>
        var recorded := RecordFailedLogin(a.email, a.storedAt);
        return Refused;
      case CodeMissing =>
        store.ResetLoginThrottle(a.email);
        return ChallengeIssued;
      case SignedIn =>
        store.ResetLoginThrottle(a.email);
        return LoggedIn;
      case _ =>
        return Refused;
    }

    method RecordFailedLogin(email: string, now: nat) returns (r: Result<(), StoreError>)
      modifies store`loginThrottles
      ensures r.Ok? <==> Trim(email) != ""
      ensures var before := old(store.loginThrottles);
              store.loginThrottles ==
                if r.Err? then before else before[email := AfterFailure(ThrottleOf(before, email), email, now)]
    {
      var throttle := store.LoginThrottle(email);
      throttle := throttle.(email := email, updatedAt := now);
      throttle := throttle.(failedCount := throttle.failedCount + 1);
      var duration := LoginLockDuration(throttle.failedCount);
      if duration > 0 {
        throttle := throttle.(lockedUntil := now + duration);
      } else {
        throttle := throttle.(lockedUntil := 0);
      }
      r := store.StoreLoginThrottle(throttle);
    }
  }

  // ---------------------------------------------------------------------------------------------
  // Runs

  /** A login attempt, or the store's reset that a password reset and a passkey login call. */
  datatype Call = LogIn(attempt: Attempt) | Reset(email: string)

  function Do(ts: Throttles, c: Call): Throttles {
    match c
    case LogIn(a) => Step(ts, a)
    case Reset(email) => ts - {email}
  }

  /** Attempts run one after another on a clock that never goes back. */
  ghost predicate Timed(run: seq<Call>) {
    && (forall i :: 0 <= i < |run| && run[i].LogIn? ==> run[i].attempt.checkedAt <= run[i].attempt.storedAt)
    && (forall i, j :: 0 <= i < j < |run| && run[i].LogIn? && run[j].LogIn? ==>
          run[i].attempt.storedAt <= run[j].attempt.checkedAt)
  }

  function After(run: seq<Call>): Throttles {
    if run == [] then map[] else Do(After(run[..|run| - 1]), run[|run| - 1])
  }

  /** When the failures for `email` since its last reset were recorded, oldest first. */
  function FailureTimes(run: seq<Call>, email: string): seq<nat> {
    if run == [] then []
    else
      var init := run[..|run| - 1];
      var earlier := FailureTimes(init, email);
      match run[|run| - 1]
      case Reset(e) => if e == email then [] else earlier
      case LogIn(a) =>
        if a.email != email then earlier
        else if Fails(After(init), a) then earlier + [a.storedAt]
        else if Resets(After(init), a) then []
        else earlier
  }

  /** The lock durations of failures 1 up to k - 1 together: the least age of the k-th failure. */
  function LocksBefore(k: nat): nat {
    if k <= 1 then 0 else LocksBefore(k - 1) + LockDuration(k - 1)
  }

  /** The throttle an email has is a function of its failure times alone. */
  ghost predicate Reflects(ts: Throttles, email: string, times: seq<nat>) {
    && (email in ts <==> times != [])
    && ThrottleOf(ts, email) ==
       if times == [] then Throttle("", 0, 0, 0)
       else
         var last := times[|times| - 1];
         Throttle(email, |times|, if LockDuration(|times|) > 0 then last + LockDuration(|times|) else 0, last)
  }

  /** Some attempt of the run stored its outcome at `t`. */
  ghost predicate StoredIn(run: seq<Call>, t: nat) {
    exists i: nat :: StoredBy(run, i, t)
  }

  ghost predicate StoredBy(run: seq<Call>, i: nat, t: nat) {
    i < |run| && run[i].LogIn? && run[i].attempt.storedAt == t
  }

  lemma StoredStays(run: seq<Call>, t: nat)
    requires run != [] && StoredIn(run[..|run| - 1], t)
    ensures StoredIn(run, t)
  {
    var i: nat :| StoredBy(run[..|run| - 1], i, t);
    assert StoredBy(run, i, t);
  }

  /** Every counted failure is one of the run's attempts. */
  lemma {:induction false} FailuresAreAttempts(run: seq<Call>, email: string)
    ensures forall k :: 0 <= k < |FailureTimes(run, email)| ==> StoredIn(run, FailureTimes(run, email)[k])
  {
    if run != [] {
      var earlier := FailureTimes(run[..|run| - 1], email);
      FailuresAreAttempts(run[..|run| - 1], email);
      forall k | 0 <= k < |earlier| ensures StoredIn(run, earlier[k]) { StoredStays(run, earlier[k]); }
      var last := run[|run| - 1];
      if last.LogIn? { assert StoredBy(run, |run| - 1, last.attempt.storedAt); }
    }
  }

  lemma FailuresComeFirst(run: seq<Call>, email: string)
    requires Timed(run) && run != [] && run[|run| - 1].LogIn?
    ensures var earlier := FailureTimes(run[..|run| - 1], email);
            forall k :: 0 <= k < |earlier| ==> earlier[k] <= run[|run| - 1].attempt.checkedAt
  {
    var init := run[..|run| - 1];
    var earlier := FailureTimes(init, email);
    FailuresAreAttempts(init, email);
    forall k | 0 <= k < |earlier| ensures earlier[k] <= run[|run| - 1].attempt.checkedAt {
      var i: nat :| StoredBy(init, i, earlier[k]);
      assert run[i] == init[i];
    }
  }

  /** One more attempt: its failure, if it is one, comes after the lock of the failure before it. */
  lemma AttemptReflects(ts: Throttles, a: Attempt, email: string, earlier: seq<nat>)
    requires Reflects(ts, email, earlier) && a.checkedAt <= a.storedAt
    requires forall k :: 0 <= k < |earlier| ==> earlier[k] <= a.checkedAt
    requires forall k :: 0 <= k < |earlier| ==> earlier[k] >= earlier[0] + LocksBefore(k + 1)
    ensures a.email == email && Fails(ts, a) ==>
              var times := earlier + [a.storedAt];
              && Reflects(Step(ts, a), email, times)
              && forall k :: 0 <= k < |times| ==> times[k] >= times[0] + LocksBefore(k + 1)
    ensures a.email == email && Resets(ts, a) ==> Reflects(Step(ts, a), email, [])
    ensures a.email != email || !(Fails(ts, a) || Resets(ts, a)) ==> Reflects(Step(ts, a), email, earlier)
  {
    if a.email == email && Fails(ts, a) && earlier != [] {
      var last := earlier[|earlier| - 1];
      assert a.storedAt >= last + LockDuration(|earlier|);
      assert last >= earlier[0] + LocksBefore(|earlier|);
    }
  }

  /**
   The throttle bound. In every run the failures counted since the last reset are as far apart as
   their lock durations: the k-th comes at least LocksBefore(k) after the first.
   */
  lemma {:induction false} FailuresAreSpaced(run: seq<Call>, email: string)
    requires Timed(run)
    ensures var times := FailureTimes(run, email);
            && Reflects(After(run), email, times)
            && (forall k :: 0 <= k < |times| ==> times[k] >= times[0] + LocksBefore(k + 1))
  {
    if run != [] {
      var init, last := run[..|run| - 1], run[|run| - 1];
      FailuresAreSpaced(init, email);
      if last.LogIn? {
        FailuresComeFirst(run, email);
        AttemptReflects(After(init), last.attempt, email, FailureTimes(init, email));
      }
    }
  }

  lemma FirstLocks()
    ensures LocksBefore(11) == 31 * MINUTE && LocksBefore(12) == 63 * MINUTE
    ensures forall k: nat :: k <= 6 ==> LocksBefore(k) == 0
    ensures Pow2(6) == 64
  {
    assert Pow2(5) == 32;
    assert LocksBefore(6) == 0;
    assert LocksBefore(8) == 3 * MINUTE;
    assert LocksBefore(10) == 15 * MINUTE;
  }

  /** From the twelfth failure on every lock lasts an hour. */
  lemma {:induction false} LocksBeforeClosedForm(k: nat)
    requires k >= 12
    ensures LocksBefore(k) == (63 + 60 * (k - 12)) * MINUTE
  {
    FirstLocks();
    if k > 12 {
      LocksBeforeClosedForm(k - 1);
      Pow2Grows(6, k - 7);
      assert LockDuration(k - 1) == MAX_LOCK;
    }
  }

  /**
   The guessing bound that follows: within `hours` hours of the first counted failure an email sees
   at most 10 + hours failures, unless something resets it.
   */
  lemma GuessesWithin(run: seq<Call>, email: string, k: nat, hours: nat)
    requires Timed(run) && 1 <= k <= |FailureTimes(run, email)|
    requires FailureTimes(run, email)[k - 1] <= FailureTimes(run, email)[0] + hours * MAX_LOCK
    ensures k <= 10 + hours
  {
    FailuresAreSpaced(run, email);
    FirstLocks();
    if k >= 12 {
      LocksBeforeClosedForm(k);
      assert (63 + 60 * (k - 12)) * MINUTE <= hours * 60 * MINUTE;
    }
  }
}
