/**
 Time-based one-time passwords (RFC 6238): code verification with a failure counter and replay
 markers, and confirmation of a pending setup.

 Times are nanoseconds since the Unix epoch. The HOTP function and the marker hash are parameters;
 codes are taken as already trimmed and secrets as already decrypted. Replay markers and failure
 counters are the authentication store's; of users and pending setups only the fields used here are kept.
 */
module Totp {
  import AuthStore

  const SECOND: nat := 1_000_000_000
  const PERIOD: nat := 30
  const MAX_FAILURES: nat := 5
  const SKEW: nat := 1
  /** A code validates during its own step and one step on each side. */
  const VALIDITY_WINDOW: nat := PERIOD * (2 * SKEW + 1) * SECOND

  datatype Env = Env(
    hotp: (string, int) -> string,        // secret, time step
    hash: (string, string) -> string,     // user id, code
    replayCacheDuration: int)

  datatype Setup = Setup(userID: string, secret: string, expiresAt: nat)
  datatype User = User(enabled: bool, secret: string)

  datatype State = State(
    users: map<string, User>,
    pending: map<string, Setup>,                 // by session id
    replays: map<AuthStore.ReplayKey, int>,      // to expiry
    failed: map<string, int>)

  function StepAt(now: nat): int {
    now / SECOND / PERIOD
  }

  /** The library checks the current step, then one step on each side of it. */
  predicate Validates(env: Env, secret: string, code: string, now: nat) {
    || code == env.hotp(secret, StepAt(now))
    || code == env.hotp(secret, StepAt(now) + 1)
    || code == env.hotp(secret, StepAt(now) - 1)
  }

  /** The code is that of a 30-second step which contains the moment or is at most 30 seconds away from it. */
  ghost predicate IsCurrent(env: Env, secret: string, code: string, now: nat) {
    exists step: int :: code == env.hotp(secret, step) &&
      (step - 1) * 30_000_000_000 <= now < (step + 2) * 30_000_000_000
  }

  /** These are the codes that validate, and no others. */
  lemma ValidatesIff(env: Env, secret: string, code: string, now: nat)
    ensures Validates(env, secret, code, now) <==> IsCurrent(env, secret, code, now)
  {
    var current := StepAt(now);
    assert current * 30_000_000_000 <= now < (current + 1) * 30_000_000_000;
    if IsCurrent(env, secret, code, now) {
      var step :| code == env.hotp(secret, step) &&
        (step - 1) * 30_000_000_000 <= now < (step + 2) * 30_000_000_000;
      assert step == current || step == current + 1 || step == current - 1;
    }
  }

  function Failures(st: State, userID: string): int {
    AuthStore.FailedCount(st.failed, userID)
  }

  function CountFailure(st: State, userID: string): State {
    st.(failed := st.failed[userID := Failures(st, userID) + 1])
  }

  function Accept(st: State, userID: string, key: AuthStore.ReplayKey, expiresAt: int): State {
    st.(replays := st.replays[key := expiresAt], failed := st.failed - {userID})
  }

  function Retention(env: Env): int {
    if env.replayCacheDuration < VALIDITY_WINDOW then VALIDITY_WINDOW else env.replayCacheDuration
  }

  // ---------------------------------------------------------------------------------------------
  // The two operations, as functions of the state

  datatype Op =
    /** `verifyTOTPCode`: the clock is read for the replay check, the validation and the marker. */
    | Verify(userID: string, secret: string, code: string, checkedAt: nat, validatedAt: nat, storedAt: nat)
    /** `ConfirmTOTP` by the user `userID` on session `sessionID`. */
    | Confirm(userID: string, sessionID: string, code: string, checkedAt: nat, validatedAt: nat)
    /** `SetupTOTP`: a fresh secret waits for confirmation on the session. */
    | Begin(userID: string, sessionID: string, secret: string, expiresAt: nat)

  function VerifyCode(env: Env, st: State, op: Op): (State, bool)
    requires op.Verify?
  {
    var key := (op.userID, env.hash(op.userID, op.code));
    if Failures(st, op.userID) >= MAX_FAILURES then (st, false)
    else
      var st := st.(replays := AuthStore.DropExpired(st.replays, key, op.checkedAt));
      if key in st.replays || !Validates(env, op.secret, op.code, op.validatedAt) then
        (CountFailure(st, op.userID), false)
      else
        (Accept(st, op.userID, key, op.storedAt + Retention(env)), true)
  }

  function ConfirmSetup(env: Env, st: State, op: Op): (State, bool)
    requires op.Confirm?
  {
    if op.sessionID !in st.pending then (st, false)
    else
      var setup := st.pending[op.sessionID];
      if setup.userID != op.userID || setup.expiresAt <= op.checkedAt then
        (st.(pending := st.pending - {op.sessionID}), false)
      else if Failures(st, op.userID) >= MAX_FAILURES then (st, false)
      else if !Validates(env, setup.secret, op.code, op.validatedAt) then (CountFailure(st, op.userID), false)
      else if op.userID !in st.users then (st, false)
      else
        (State(st.users[op.userID := User(true, setup.secret)], st.pending - {op.sessionID},
               st.replays, st.failed - {op.userID}), true)
  }

  function Do(env: Env, st: State, op: Op): (State, bool) {
    match op
    case Verify(_, _, _, _, _, _) => VerifyCode(env, st, op)
    case Confirm(_, _, _, _, _) => ConfirmSetup(env, st, op)
    case Begin(userID, sessionID, secret, expiresAt) =>
      (st.(pending := st.pending[sessionID := Setup(userID, secret, expiresAt)]), true)
  }

  class Service {
    const env: Env
    const store: AuthStore.MemoryStore
    var users: map<string, User>
    var pending: map<string, Setup>

    constructor (env: Env, store: AuthStore.MemoryStore)
      ensures this.env == env && this.store == store
      ensures Contents() == State(map[], map[], store.totpReplays, store.failedTOTPs)
    {
      this.env, this.store := env, store;
      users, pending := map[], map[];
    }

    ghost function Contents(): State
      reads this, store
    {
      State(users, pending, store.totpReplays, store.failedTOTPs)
    }

    method CountRejected(userID: string)
      modifies store`failedTOTPs
      ensures Contents() == CountFailure(old(Contents()), userID)
    {
      var failures := store.IncrementFailedTOTP(userID);
    }

    /** An accepted code is marked and ends the row of failures. */
    method Remember(userID: string, codeHash: string, expiresAt: int)
      modifies store`totpReplays, store`failedTOTPs
      ensures Contents() == Accept(old(Contents()), userID, (userID, codeHash), expiresAt)
    {
      store.StoreTOTPReplay(userID, codeHash, expiresAt);
      store.ResetFailedTOTP(userID);
    }

    method VerifyTOTPCode(userID: string, secret: string, code: string,
                          checkedAt: nat, validatedAt: nat, storedAt: nat) returns (ok: bool)
      modifies store`totpReplays, store`failedTOTPs
      ensures (Contents(), ok) ==
              VerifyCode(env, old(Contents()), Verify(userID, secret, code, checkedAt, validatedAt, storedAt))
      ensures ok ==> IsCurrent(env, secret, code, validatedAt)
      ensures !ok && old(Failures(Contents(), userID)) < 5 ==>
                Failures(Contents(), userID) == old(Failures(Contents(), userID)) + 1
    {
      ValidatesIff(env, secret, code, validatedAt);
      var failures := store.FailedTOTPCount(userID);
      if failures >= MAX_FAILURES {
        return false;
      }
      var codeHash := env.hash(userID, code);
      var replayed := store.TOTPReplayExists(userID, codeHash, checkedAt);
      if replayed {
        CountRejected(userID);
        return false;
      }
      if !Validates(env, secret, code, validatedAt) {
        CountRejected(userID);
        return false;
      }
      var retention := env.replayCacheDuration;
      if retention < VALIDITY_WINDOW {
        retention := VALIDITY_WINDOW;
      }
      Remember(userID, codeHash, storedAt + retention);
      return true;
    }

    method ConfirmTOTP(userID: string, sessionID: string, code: string, checkedAt: nat, validatedAt: nat)
      returns (ok: bool)
      modifies this, store`failedTOTPs
      ensures (Contents(), ok) ==
              ConfirmSetup(env, old(Contents()), Confirm(userID, sessionID, code, checkedAt, validatedAt))
      ensures ok ==>
                && sessionID in old(pending) && IsCurrent(env, old(pending)[sessionID].secret, code, validatedAt)
                && userID in users && users[userID] == User(true, old(pending)[sessionID].secret)
    {
      if sessionID !in pending {
        return false;
      }
      var setup := pending[sessionID];
      if setup.userID != userID || setup.expiresAt <= checkedAt {
        pending := pending - {sessionID};
        return false;
      }
      var failures := store.FailedTOTPCount(userID);
      if failures >= MAX_FAILURES {
        return false;
      }
      ValidatesIff(env, setup.secret, code, validatedAt);
      if !Validates(env, setup.secret, code, validatedAt) {
        CountRejected(userID);
        return false;
      }
      if userID !in users {
        return false;
      }
      users := users[userID := User(true, setup.secret)];
      pending := pending - {sessionID};
      store.ResetFailedTOTP(userID);
      return true;
    }
  }

  // ---------------------------------------------------------------------------------------------
  // Runs

  function After(env: Env, start: State, run: seq<Op>): State {
    if run == [] then start else Do(env, After(env, start, run[..|run| - 1]), run[|run| - 1]).0
  }

  function Accepted(env: Env, start: State, run: seq<Op>, i: nat): bool
    requires i < |run|
  {
    Do(env, After(env, start, run[..i]), run[i]).1
  }

  /** Verifications follow one another on a clock that never goes back. */
  ghost predicate Timed(run: seq<Op>) {
    && (forall i :: 0 <= i < |run| && run[i].Verify? ==>
          run[i].checkedAt <= run[i].validatedAt <= run[i].storedAt)
    && (forall i, j :: 0 <= i < j < |run| && run[i].Verify? && run[j].Verify? ==>
          run[i].storedAt <= run[j].checkedAt)
  }

  function MarkerKey(env: Env, op: Op): AuthStore.ReplayKey
    requires op.Verify?
  {
    (op.userID, env.hash(op.userID, op.code))
  }

  /** The i-th operation's marker is still stored, or was dropped once its validity window had passed. */
  ghost predicate Remembers(env: Env, st: State, run: seq<Op>, i: nat)
    requires i < |run| && run[i].Verify?
  {
    var key, until := MarkerKey(env, run[i]), run[i].storedAt + VALIDITY_WINDOW;
    if key in st.replays then st.replays[key] >= until
    else exists j :: i < j < |run| && run[j].Verify? && run[j].checkedAt >= until
  }

  lemma {:induction false} AcceptedCodesAreRemembered(env: Env, start: State, run: seq<Op>, i: nat)
    requires Timed(run) && i < |run| && run[i].Verify? && Accepted(env, start, run, i)
    ensures Remembers(env, After(env, start, run), run, i)
    decreases |run|
  {
    var init, last := run[..|run| - 1], run[|run| - 1];
    var key, until := MarkerKey(env, run[i]), run[i].storedAt + VALIDITY_WINDOW;
    if i < |init| {
      assert init[..i] == run[..i];
      AcceptedCodesAreRemembered(env, start, init, i);
      var st := After(env, start, init);
      if key in st.replays {
        assert last.Verify? ==> run[i].storedAt <= last.checkedAt;
        StepKeepsMarker(env, st, last, key, until);
        assert last == run[|run| - 1];
      } else {
        var j :| i < j < |init| && init[j].Verify? && init[j].checkedAt >= until;
        assert run[j] == init[j];
        StepMarksLater(env, st, last, key, until);
      }
    }
  }

  /** A step forgets a marker only when it reads the marker after its expiry. */
  lemma StepKeepsMarker(env: Env, st: State, op: Op, key: AuthStore.ReplayKey, until: nat)
    requires key in st.replays && st.replays[key] >= until
    requires op.Verify? ==> until <= op.storedAt + VALIDITY_WINDOW
    ensures var st' := Do(env, st, op).0;
            if key in st'.replays then st'.replays[key] >= until else op.Verify? && op.checkedAt >= until
  {}

  lemma StepMarksLater(env: Env, st: State, op: Op, key: AuthStore.ReplayKey, until: nat)
    requires key !in st.replays && (op.Verify? ==> until <= op.storedAt + VALIDITY_WINDOW)
    ensures var st' := Do(env, st, op).0; key in st'.replays ==> st'.replays[key] >= until
  {}

  /**
   Single use, section 5.2 of RFC 6238. If a user's code is accepted twice in a run, the two
   acceptances are at least three time steps apart, whatever the configured cache duration.
   */
  lemma AcceptancesAreApart(env: Env, start: State, run: seq<Op>, i: nat, j: nat)
    requires Timed(run) && i < j < |run| && run[i].Verify? && run[j].Verify?
    requires run[i].userID == run[j].userID && run[i].code == run[j].code
    requires Accepted(env, start, run, i) && Accepted(env, start, run, j)
    ensures StepAt(run[j].validatedAt) >= StepAt(run[i].validatedAt) + 3
  {
    var before := run[..j];
    assert before[..i] == run[..i];
    AcceptedCodesAreRemembered(env, start, before, i);
    var st, key := After(env, start, before), MarkerKey(env, run[i]);
    if key !in st.replays {
      var k :| i < k < |before| && before[k].Verify? && before[k].checkedAt >= run[i].storedAt + VALIDITY_WINDOW;
      assert run[k].storedAt <= run[j].checkedAt;
    }
    assert run[j].validatedAt >= run[i].validatedAt + VALIDITY_WINDOW;
  }

  /** A time step's code is accepted at most once while that step can still be entered. */
  lemma NoStepIsAcceptedTwice(env: Env, start: State, run: seq<Op>, i: nat, j: nat, secret: string, step: int)
    requires Timed(run) && i < j < |run| && run[i].Verify? && run[j].Verify?
    requires run[i].userID == run[j].userID
    requires run[i].code == run[j].code == env.hotp(secret, step)
    requires StepAt(run[i].validatedAt) - 1 <= step <= StepAt(run[i].validatedAt) + 1
    requires StepAt(run[j].validatedAt) - 1 <= step <= StepAt(run[j].validatedAt) + 1
    requires Accepted(env, start, run, i)
    ensures !Accepted(env, start, run, j)
  {
    if Accepted(env, start, run, j) {
      AcceptancesAreApart(env, start, run, i, j);
    }
  }

  // ---------------------------------------------------------------------------------------------
  // Acceptance, read off the history

  /** Operation `k` is an accepted verification whose marker for `key` has not expired at `now`. */
  ghost predicate MarksUntilAfter(env: Env, start: State, run: seq<Op>, k: nat, key: AuthStore.ReplayKey, now: nat) {
    && k < |run| && run[k].Verify? && Accepted(env, start, run, k)
    && MarkerKey(env, run[k]) == key && run[k].storedAt + Retention(env) > now
  }

  /** A marker is live exactly when some accepted verification set it within the retention. */
  lemma {:induction false} MarkerIsLiveIff(env: Env, start: State, run: seq<Op>, key: AuthStore.ReplayKey, now: nat)
    requires start.replays == map[] && Timed(run)
    requires forall i :: 0 <= i < |run| && run[i].Verify? ==> run[i].storedAt <= now
    ensures var st := After(env, start, run);
            (key in st.replays && st.replays[key] > now) <==>
                exists k: nat :: MarksUntilAfter(env, start, run, k, key, now)
  {
    if run != [] {
      var init, n := run[..|run| - 1], |run| - 1;
      MarkerIsLiveIff(env, start, init, key, now);
      MarksOfLonger(env, start, run, key, now);
      LastMarks(env, After(env, start, init), run[n], key, now);
      if k: nat :| MarksUntilAfter(env, start, init, k, key, now) {
        assert run[n].Verify? ==> run[k].storedAt <= run[n].storedAt;
      }
    }
  }

  /** Operations of a run leave the same marks in a longer one. */
  lemma MarksOfLonger(env: Env, start: State, run: seq<Op>, key: AuthStore.ReplayKey, now: nat)
    requires run != []
    ensures var n, init := |run| - 1, run[..|run| - 1];
            (exists k: nat :: MarksUntilAfter(env, start, run, k, key, now)) <==>
            || MarksUntilAfter(env, start, run, n, key, now)
            || exists k: nat :: MarksUntilAfter(env, start, init, k, key, now)
  {
    var n, init := |run| - 1, run[..|run| - 1];
    forall k: nat | k < n ensures MarksUntilAfter(env, start, run, k, key, now) <==>
        MarksUntilAfter(env, start, init, k, key, now) {
      assert init[..k] == run[..k];
    }
    if k: nat :| MarksUntilAfter(env, start, run, k, key, now) && k != n {
      assert MarksUntilAfter(env, start, init, k, key, now);
    }
    if k: nat :| MarksUntilAfter(env, start, init, k, key, now) {
      assert MarksUntilAfter(env, start, run, k, key, now);
    }
  }

  /** One step leaves a marker live when it was and is not overwritten, or when the step sets it. */
  lemma LastMarks(env: Env, st: State, op: Op, key: AuthStore.ReplayKey, now: nat)
    requires op.Verify? ==> op.checkedAt <= now
    ensures var st' := Do(env, st, op).0;
            var sets := op.Verify? && Do(env, st, op).1 && MarkerKey(env, op) == key;
            (key in st'.replays && st'.replays[key] > now) <==>
            if sets then op.storedAt + Retention(env) > now else key in st.replays && st.replays[key] > now
  {}

  /**
   Exactly when a verification succeeds: the code is that of a step at most one from the moment's, fewer than
   five failures are counted, and no accepted verification of the same code is still remembered. Confirmations
   do not matter.
   */
  lemma VerifyAcceptedIff(env: Env, start: State, run: seq<Op>, j: nat)
    requires start.replays == map[] && Timed(run) && j < |run| && run[j].Verify?
    ensures Accepted(env, start, run, j) <==>
              && IsCurrent(env, run[j].secret, run[j].code, run[j].validatedAt)
              && Failures(After(env, start, run[..j]), run[j].userID) < 5
              && !exists k: nat :: MarksUntilAfter(env, start, run[..j], k, MarkerKey(env, run[j]), run[j].checkedAt)
  {
    ValidatesIff(env, run[j].secret, run[j].code, run[j].validatedAt);
    MarkerIsLiveIff(env, start, run[..j], MarkerKey(env, run[j]), run[j].checkedAt);
  }

  /**
   Exactly when a confirmation succeeds: the session waits for one, of this user and not expired, the code is
   that of a step at most one from the moment's for the waiting secret, fewer than five failures are counted,
   and the user is stored.
   */
  lemma ConfirmAcceptedIff(env: Env, start: State, run: seq<Op>, j: nat)
    requires j < |run| && run[j].Confirm?
    ensures var st, op := After(env, start, run[..j]), run[j];
            Accepted(env, start, run, j) <==>
              && op.sessionID in st.pending && st.pending[op.sessionID].userID == op.userID
              && st.pending[op.sessionID].expiresAt > op.checkedAt
              && IsCurrent(env, st.pending[op.sessionID].secret, op.code, op.validatedAt)
              && Failures(st, op.userID) < 5 && op.userID in st.users
  {
    var st, op := After(env, start, run[..j]), run[j];
    if op.sessionID in st.pending {
      ValidatesIff(env, st.pending[op.sessionID].secret, op.code, op.validatedAt);
    }
  }

  /** The verifications and confirmations of the user in the run. */
  function AttemptsOf(run: seq<Op>, userID: string): nat {
    if run == [] then 0
    else
      var last := run[|run| - 1];
      AttemptsOf(run[..|run| - 1], userID) + if !last.Begin? && last.userID == userID then 1 else 0
  }

  lemma StepCountsOne(env: Env, st: State, op: Op, userID: string)
    requires Failures(st, userID) >= 0
    ensures 0 <= Failures(Do(env, st, op).0, userID)
    ensures Failures(Do(env, st, op).0, userID) <=
            Failures(st, userID) + if !op.Begin? && op.userID == userID then 1 else 0
  {
    match op
    case Verify(_, _, _, _, _, _) => assert Failures(VerifyCode(env, st, op).0, userID) >= 0;
    case Confirm(_, _, _, _, _) => assert Failures(ConfirmSetup(env, st, op).0, userID) >= 0;
    case Begin(_, _, _, _) =>
  }

  /** Nothing but the user's own attempts raises the counter, each by at most one. */
  lemma {:induction false} FailuresAtMostAttempts(env: Env, start: State, run: seq<Op>, userID: string)
    requires Failures(start, userID) >= 0
    ensures 0 <= Failures(After(env, start, run), userID) <= Failures(start, userID) + AttemptsOf(run, userID)
  {
    if run != [] {
      FailuresAtMostAttempts(env, start, run[..|run| - 1], userID);
      StepCountsOne(env, After(env, start, run[..|run| - 1]), run[|run| - 1], userID);
    }
  }

  lemma {:induction false} AfterContinues(env: Env, start: State, run: seq<Op>, i: nat)
    requires i <= |run|
    ensures After(env, start, run) == After(env, After(env, start, run[..i]), run[i..])
  {
    if i == |run| {
      assert run[..i] == run && run[i..] == [];
    } else {
      AfterContinues(env, start, run[..|run| - 1], i);
      assert run[..|run| - 1][..i] == run[..i];
      assert run[i..][..|run| - 1 - i] == run[..|run| - 1][i..];
    }
  }

  /** An accepted confirmation clears the counter, so as many attempts must follow before it is at five again. */
  lemma ConfirmationClears(env: Env, start: State, run: seq<Op>, i: nat, j: nat)
    requires i < j <= |run| && run[i].Confirm? && Accepted(env, start, run, i)
    ensures Failures(After(env, start, run[..i + 1]), run[i].userID) == 0
    ensures Failures(After(env, start, run[..j]), run[i].userID) <= AttemptsOf(run[i + 1..j], run[i].userID)
  {
    assert run[..i + 1][..i] == run[..i];
    AfterContinues(env, start, run[..j], i + 1);
    assert run[..j][..i + 1] == run[..i + 1] && run[..j][i + 1..] == run[i + 1..j];
    FailuresAtMostAttempts(env, After(env, start, run[..i + 1]), run[i + 1..j], run[i].userID);
  }

  /**
   So a code that confirmed a setup signs in as well: with fewer than five attempts of the user in
   between, a verification while the code's step can still be entered succeeds exactly when no accepted
   verification of the code is remembered. In any case it takes fewer than five counted failures besides.
   */
  lemma VerifyAfterConfirmIff(env: Env, start: State, run: seq<Op>, i: nat, j: nat, step: int)
    requires start.replays == map[] && Timed(run) && i < j < |run| && run[i].Confirm? && run[j].Verify?
    requires run[i].userID == run[j].userID && run[i].code == run[j].code == env.hotp(run[j].secret, step)
    requires Accepted(env, start, run, i) && StepAt(run[j].validatedAt) - 1 <= step <= StepAt(run[j].validatedAt) + 1
    ensures Failures(After(env, start, run[..i + 1]), run[i].userID) == 0
    ensures var remembered :=
              exists k: nat :: MarksUntilAfter(env, start, run[..j], k, MarkerKey(env, run[j]), run[j].checkedAt);
            && (AttemptsOf(run[i + 1..j], run[j].userID) < MAX_FAILURES ==>
                  (Accepted(env, start, run, j) <==> !remembered))
            && (Accepted(env, start, run, j) <==>
                  !remembered && Failures(After(env, start, run[..j]), run[j].userID) < MAX_FAILURES)
  {
    StepValidates(env, run[j].secret, run[j].code, step, run[j].validatedAt);
    ValidatesIff(env, run[j].secret, run[j].code, run[j].validatedAt);
    VerifyAcceptedIff(env, start, run, j);
    ConfirmationClears(env, start, run, i, j);
  }

  lemma StepValidates(env: Env, secret: string, code: string, step: int, now: nat)
    requires code == env.hotp(secret, step) && StepAt(now) - 1 <= step <= StepAt(now) + 1
    ensures Validates(env, secret, code, now)
  {}

  /** For one: a user sets up, confirms and signs in with one code at one moment. */
  lemma ConfirmingCodeSignsIn(env: Env, userID: string, sessionID: string, secret: string, now: nat, expiresAt: nat)
    requires now < expiresAt
    ensures var code := env.hotp(secret, StepAt(now));
            var start := State(map[userID := User(false, "")], map[], map[], map[]);
            var run := [Begin(userID, sessionID, secret, expiresAt), Confirm(userID, sessionID, code, now, now),
                        Verify(userID, secret, code, now, now, now)];
            Accepted(env, start, run, 1) && Accepted(env, start, run, 2)
  {
    var code := env.hotp(secret, StepAt(now));
    var start := State(map[userID := User(false, "")], map[], map[], map[]);
    var run := [Begin(userID, sessionID, secret, expiresAt), Confirm(userID, sessionID, code, now, now),
                Verify(userID, secret, code, now, now, now)];
    assert run[..1] == [run[0]] && run[..2] == [run[0], run[1]] && [run[0], run[1]][..1] == [run[0]];
    assert After(env, start, [run[0]]) == start.(pending := map[sessionID := Setup(userID, secret, expiresAt)]) by {
      assert [run[0]][..0] == [];
    }
    assert After(env, start, [run[0], run[1]]) == State(map[userID := User(true, secret)], map[], map[], map[]);
  }

  /** The failure counter never passes five. */
  lemma {:induction false} FailuresAreBounded(env: Env, start: State, run: seq<Op>, userID: string)
    requires Failures(start, userID) <= MAX_FAILURES
    ensures Failures(After(env, start, run), userID) <= MAX_FAILURES
  {
    if run != [] {
      FailuresAreBounded(env, start, run[..|run| - 1], userID);
      StepIsBounded(env, After(env, start, run[..|run| - 1]), run[|run| - 1], userID);
    }
  }

  lemma StepIsBounded(env: Env, st: State, op: Op, userID: string)
    requires Failures(st, userID) <= MAX_FAILURES
    ensures Failures(Do(env, st, op).0, userID) <= MAX_FAILURES
    ensures Failures(st, userID) == MAX_FAILURES ==> Failures(Do(env, st, op).0, userID) == MAX_FAILURES
    ensures Failures(st, userID) == MAX_FAILURES && !op.Begin? && op.userID == userID ==> !Do(env, st, op).1
  {
    match op
    case Verify(_, _, _, _, _, _) => VerificationIsBounded(env, st, op, userID);
    case Confirm(_, _, _, _, _) => ConfirmationIsBounded(env, st, op, userID);
    case Begin(_, _, _, _) =>
  }

  lemma VerificationIsBounded(env: Env, st: State, op: Op, userID: string)
    requires op.Verify? && Failures(st, userID) <= MAX_FAILURES
    ensures Failures(VerifyCode(env, st, op).0, userID) <= MAX_FAILURES
    ensures Failures(st, userID) == MAX_FAILURES ==> Failures(VerifyCode(env, st, op).0, userID) == MAX_FAILURES
    ensures Failures(st, userID) == MAX_FAILURES && op.userID == userID ==> !VerifyCode(env, st, op).1
  {}

  lemma ConfirmationIsBounded(env: Env, st: State, op: Op, userID: string)
    requires op.Confirm? && Failures(st, userID) <= MAX_FAILURES
    ensures Failures(ConfirmSetup(env, st, op).0, userID) <= MAX_FAILURES
    ensures Failures(st, userID) == MAX_FAILURES ==> Failures(ConfirmSetup(env, st, op).0, userID) == MAX_FAILURES
    ensures Failures(st, userID) == MAX_FAILURES && op.userID == userID ==> !ConfirmSetup(env, st, op).1
  {}

  /** Once the counter is at five no code of that user is ever accepted again, not even to confirm a setup. */
  lemma {:induction false} FiveFailuresLockForGood(env: Env, start: State, run: seq<Op>, userID: string)
    requires Failures(start, userID) == MAX_FAILURES
    ensures Failures(After(env, start, run), userID) == MAX_FAILURES
    ensures forall i :: 0 <= i < |run| && !run[i].Begin? && run[i].userID == userID ==> !Accepted(env, start, run, i)
  {
    if run != [] {
      var init := run[..|run| - 1];
      FiveFailuresLockForGood(env, start, init, userID);
      StepIsBounded(env, After(env, start, init), run[|run| - 1], userID);
      forall i | 0 <= i < |run| && !run[i].Begin? && run[i].userID == userID
        ensures !Accepted(env, start, run, i)
      {
        if i < |init| {
          assert init[..i] == run[..i];
          assert !Accepted(env, start, init, i);
        }
      }
    }
  }
}
