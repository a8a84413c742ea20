/** The login lockout: the failure counter survives the lock's expiry, so failures past the fifth are paced. */
module Lockout {
  import opened Wrappers

  const MAX_FAILED_ATTEMPTS := 5
  const LOCK_DURATION: nat := 30 * 60_000

  /** The user row's two lockout columns; times are in milliseconds. */
  datatype User = User(failed: nat, lockedUntil: Option<nat>)

  const CLEAN := User(0, None)

  datatype LoginResult = LockedOut | BadPassword | LoggedIn

  predicate IsLocked(u: User, now: nat) {
    u.lockedUntil.Some? && now < u.lockedUntil.value
  }

  function Login(u: User, now: nat, valid: bool): (User, LoginResult) {
    if IsLocked(u, now) then (u, LockedOut)
    else if !valid then
      var attempts := u.failed + 1;
      var lockedUntil := if attempts >= MAX_FAILED_ATTEMPTS then Some(now + LOCK_DURATION) else u.lockedUntil;
      (User(attempts, lockedUntil), BadPassword)
    else if u.failed > 0 then (CLEAN, LoggedIn)
    else (u, LoggedIn)
  }

  // ----- a run of attempts -----

  datatype Attempt = Attempt(at: nat, valid: bool)

  ghost predicate InOrder(attempts: seq<Attempt>) {
    forall i, j :: 0 <= i <= j < |attempts| ==> attempts[i].at <= attempts[j].at
  }

  function After(attempts: seq<Attempt>): User {
    if attempts == [] then CLEAN
    else
      var last := attempts[|attempts| - 1];
      Login(After(attempts[..|attempts| - 1]), last.at, last.valid).0
  }

  function ResultOf(attempts: seq<Attempt>, i: nat): LoginResult
    requires i < |attempts|
  {
    Login(After(attempts[..i]), attempts[i].at, attempts[i].valid).1
  }

  ghost predicate NoneSucceeds(attempts: seq<Attempt>) {
    forall i :: 0 <= i < |attempts| ==> ResultOf(attempts, i) != LoggedIn
  }

  /** The times of the failures that were counted: those not refused because of the lock. */
  function Failures(attempts: seq<Attempt>): seq<nat> {
    if attempts == [] then []
    else
      var before := attempts[..|attempts| - 1];
      var last := attempts[|attempts| - 1];
      Failures(before) + if Login(After(before), last.at, last.valid).1 == BadPassword then [last.at] else []
  }

  /** The row says exactly how many failures were counted and, from the fifth on, when the last one was. */
  ghost predicate Tracks(u: User, failures: seq<nat>) {
    && u.failed == |failures|
    && (|failures| >= MAX_FAILED_ATTEMPTS ==> u.lockedUntil == Some(failures[|failures| - 1] + LOCK_DURATION))
    && (|failures| < MAX_FAILED_ATTEMPTS ==> u.lockedUntil == None)
  }

  ghost predicate Paced(failures: seq<nat>) {
    forall k :: MAX_FAILED_ATTEMPTS <= k < |failures| ==> failures[k] >= failures[k - 1] + LOCK_DURATION
  }

  lemma {:induction false} FailuresArePaced(attempts: seq<Attempt>)
    requires NoneSucceeds(attempts)
    ensures Tracks(After(attempts), Failures(attempts)) && Paced(Failures(attempts))
  {
    if attempts != [] {
      var before := attempts[..|attempts| - 1];
      forall i | 0 <= i < |before| ensures ResultOf(before, i) != LoggedIn {
        assert attempts[..i] == before[..i];
        assert ResultOf(attempts, i) != LoggedIn;
      }
      FailuresArePaced(before);
      assert ResultOf(attempts, |before|) != LoggedIn;
    }
  }

  lemma {:induction false} PaceAddsUp(failures: seq<nat>, n: nat)
    requires Paced(failures) && MAX_FAILED_ATTEMPTS <= n <= |failures|
    ensures failures[n - 1] - failures[MAX_FAILED_ATTEMPTS - 1] >= (n - MAX_FAILED_ATTEMPTS) * LOCK_DURATION
  {
    if n > MAX_FAILED_ATTEMPTS {
      PaceAddsUp(failures, n - 1);
    }
  }

  /** Lockout pace: with no successful login or activation in between, n >= 5 counted failures span at
      least (n - 5) lock durations of 30 minutes. */
  lemma LockoutPace(attempts: seq<Attempt>)
    requires InOrder(attempts) && NoneSucceeds(attempts) && |Failures(attempts)| >= 5
    ensures var failures := Failures(attempts);
      failures[|failures| - 1] - failures[0] >= (|failures| - 5) * 1_800_000
  {
    FailuresArePaced(attempts);
    PaceAddsUp(Failures(attempts), |Failures(attempts)|);
    FailuresInOrder(attempts);
  }

  lemma {:induction false} FailuresInOrder(attempts: seq<Attempt>)
    requires InOrder(attempts)
    ensures forall i, j :: 0 <= i <= j < |Failures(attempts)| ==> Failures(attempts)[i] <= Failures(attempts)[j]
    ensures forall i :: 0 <= i < |Failures(attempts)| ==> Failures(attempts)[i] <= attempts[|attempts| - 1].at
  {
    if attempts != [] {
      FailuresInOrder(attempts[..|attempts| - 1]);
      if |attempts| > 1 {
        assert attempts[|attempts| - 2].at <= attempts[|attempts| - 1].at;
      }
    }
  }

  /** The pace is reached: four failures at once, then one at every expiry, are all counted. */
  function Patient(n: nat): seq<Attempt> {
    if n == 0 then []
    else Patient(n - 1) + [Attempt(if n <= 5 then 0 else (n - 5) * LOCK_DURATION, false)]
  }

  lemma {:induction false} PatientIsCounted(n: nat)
    ensures |Patient(n)| == n && |Failures(Patient(n))| == n && After(Patient(n)).failed == n
    ensures n > 0 ==> Failures(Patient(n))[n - 1] == (if n <= 5 then 0 else (n - 5) * LOCK_DURATION)
    ensures n > 0 ==> Failures(Patient(n))[0] == 0
    ensures After(Patient(n)).lockedUntil == if n < 5 then None else Some((n - 4) * LOCK_DURATION)
  {
    if n > 0 {
      PatientIsCounted(n - 1);
      assert Patient(n)[..n - 1] == Patient(n - 1);
    }
  }

  datatype Account = Account(row: User, suspended: bool)

  datatype Answer = Refused(reason: LoginResult) | AccountSuspended | TokensIssued

  /** The accounts by email address. */
  class AuthService {
    var users: map<string, Account>

    constructor ()
      ensures users == map[]
    {
      users := map[];
    }

    method RecordFailedAttempt(email: string, now: nat)
      requires email in users
      modifies this
      ensures email in users && users == old(users)[email := old(users)[email].(row := users[email].row)]
      ensures users[email].row.failed == old(users)[email].row.failed + 1
      ensures users[email].row.lockedUntil ==
        if old(users)[email].row.failed + 1 >= 5 then Some(now + 1_800_000) else old(users)[email].row.lockedUntil
    {
      var user := users[email].row;
      var attempts := user.failed + 1;
      var update := user.(failed := attempts);
      if attempts >= MAX_FAILED_ATTEMPTS {
        update := update.(lockedUntil := Some(now + LOCK_DURATION));
      }
      users := users[email := users[email].(row := update)];
    }

    /** An unknown address is refused like a wrong password and leaves no trace; otherwise exactly the one
        user's row moves, as in the runs above. A suspended account is refused only after a valid password has
        cleared its counter. */
    method LoginAttempt(email: string, now: nat, passwordValid: bool) returns (answer: Answer)
      modifies this
      ensures email !in old(users) ==> answer == Refused(BadPassword) && users == old(users)
      ensures email in old(users) ==>
        var before, after := old(users)[email].row, if email in users then users[email].row else CLEAN;
        if before.lockedUntil.Some? && now < before.lockedUntil.value then
          answer == Refused(LockedOut) && after == before
        else if !passwordValid then
          && answer == Refused(BadPassword) && after.failed == before.failed + 1
          && after.lockedUntil == if before.failed >= 4 then Some(now + 1_800_000) else before.lockedUntil
        else
          && answer == (if old(users)[email].suspended then AccountSuspended else TokensIssued)
          && after == if before.failed > 0 then User(0, None) else before
      ensures email in old(users) ==>
        var (row, result) := Login(old(users)[email].row, now, passwordValid);
        && users == old(users)[email := old(users)[email].(row := row)]
        && answer == if result != LoggedIn then Refused(result)
                     else if old(users)[email].suspended then AccountSuspended else TokensIssued
    {
      if email in users && users[email].row.lockedUntil.Some? && now < users[email].row.lockedUntil.value {
        return Refused(LockedOut);
      }
      if email !in users || !passwordValid {
        if email in users { RecordFailedAttempt(email, now); }
        return Refused(BadPassword);
      }
      if users[email].row.failed > 0 {
        users := users[email := users[email].(row := CLEAN)];
      }
      if users[email].suspended { return AccountSuspended; }
      return TokensIssued;
    }

    /** An administrator's activation forgets every failure and lifts a suspension. */
    method ActivateUser(email: string)
      modifies this
      ensures users == if email in old(users) then old(users)[email := Account(User(0, None), false)] else old(users)
    {
      if email in users {
        users := users[email := Account(CLEAN, false)];
      }
    }
  }
}
