/** Account lockout after repeated failed logins
    (src/users/users.service.ts:79-113, src/auth/auth.service.ts:215-255).
    One login attempt is one step; times are milliseconds. */
module LoginLockout {
  import opened Prelude

  /** LOGIN_MAX_ATTEMPTS and LOGIN_LOCKOUT_MINUTES, both validated to be at least one. */
  datatype Config = Config(maxAttempts: nat, lockout: nat) {
    predicate Valid() { maxAttempts >= 1 && lockout >= 1 }
  }

  datatype User = User(failedLoginCount: nat, lockedUntil: Option<int>)

  datatype Attempt = Attempt(at: int, active: bool, passwordValid: bool)

  /** `Failed` is a password check that failed. */
  datatype Outcome = Locked | Inactive | Failed | Passed

  predicate IsLocked(user: User, now: int) {
    user.lockedUntil.Some? && user.lockedUntil.value > now
  }

  function RegisterFailed(c: Config, user: User, now: int): User {
    if user.failedLoginCount + 1 >= c.maxAttempts then User(0, Some(now + c.lockout))
    else user.(failedLoginCount := user.failedLoginCount + 1)
  }

  function Login(c: Config, user: User, a: Attempt): (User, Outcome) {
    if IsLocked(user, a.at) then (user, Locked)
    else if !a.active then (user, Inactive)
    else if !a.passwordValid then (RegisterFailed(c, user, a.at), Failed)
    else (User(0, None), Passed)
  }

  ghost predicate InOrder(attempts: seq<Attempt>) {
    forall i, j :: 0 <= i < j < |attempts| ==> attempts[i].at <= attempts[j].at
  }

  /** Failed password checks at times in [from, to). */
  function FailedIn(c: Config, user: User, attempts: seq<Attempt>, from: int, to: int): nat
    decreases |attempts|
  {
    if attempts == [] then 0
    else
      var (user', outcome) := Login(c, user, attempts[0]);
      (if outcome == Failed && from <= attempts[0].at < to then 1 else 0) + FailedIn(c, user', attempts[1..], from, to)
  }

  function After(c: Config, user: User, attempts: seq<Attempt>): User
    decreases |attempts|
  {
    if attempts == [] then user else After(c, Login(c, user, attempts[0]).0, attempts[1..])
  }

  /** The counter stays below the limit after every attempt. */
  lemma {:induction false} CounterStaysBelow(c: Config, user: User, attempts: seq<Attempt>)
    requires c.Valid() && user.failedLoginCount < c.maxAttempts
    ensures After(c, user, attempts).failedLoginCount < c.maxAttempts
    decreases |attempts|
  {
    if attempts != [] { CounterStaysBelow(c, Login(c, user, attempts[0]).0, attempts[1..]); }
  }

  /** No attempt in [from, to) gets past the password check. */
  predicate NoSuccess(c: Config, user: User, attempts: seq<Attempt>, from: int, to: int)
    decreases |attempts|
  {
    attempts == [] ||
    var (user', outcome) := Login(c, user, attempts[0]);
    !(outcome == Passed && from <= attempts[0].at < to) && NoSuccess(c, user', attempts[1..], from, to)
  }

  lemma {:induction false} NoSuccessWithin(c: Config, user: User, attempts: seq<Attempt>, from: int, to: int,
      low: int, high: int)
    requires NoSuccess(c, user, attempts, from, to) && from <= low && high <= to
    ensures NoSuccess(c, user, attempts, low, high)
    decreases |attempts|
  {
    if attempts != [] { NoSuccessWithin(c, Login(c, user, attempts[0]).0, attempts[1..], from, to, low, high); }
  }

  lemma {:induction false} NothingAfter(c: Config, user: User, attempts: seq<Attempt>, from: int, to: int)
    requires forall i :: 0 <= i < |attempts| ==> attempts[i].at >= to
    ensures FailedIn(c, user, attempts, from, to) == 0
    decreases |attempts|
  {
    if attempts != [] { NothingAfter(c, Login(c, user, attempts[0]).0, attempts[1..], from, to); }
  }

  /** While the account is locked to the end of the window nothing is checked in it. */
  lemma {:induction false} LockedOut(c: Config, user: User, attempts: seq<Attempt>, from: int, to: int)
    requires InOrder(attempts)
    requires user.lockedUntil.Some? && user.lockedUntil.value >= to
    ensures FailedIn(c, user, attempts, from, to) == 0
    decreases |attempts|
  {
    if attempts != [] {
      if attempts[0].at < to {
        LockedOut(c, user, attempts[1..], from, to);
      } else {
        NothingAfter(c, user, attempts, from, to);
      }
    }
  }

  /** Inside a window no longer than the lockout, the failures left are those the
      counter still allows: the one that fills it locks the rest of the window. */
  lemma {:induction false} WindowFromInside(c: Config, user: User, attempts: seq<Attempt>, from: int, to: int)
    requires c.Valid() && user.failedLoginCount < c.maxAttempts
    requires InOrder(attempts) && NoSuccess(c, user, attempts, from, to) && to <= from + c.lockout
    requires forall i :: 0 <= i < |attempts| ==> from <= attempts[i].at
    ensures FailedIn(c, user, attempts, from, to) <= c.maxAttempts - user.failedLoginCount
    decreases |attempts|
  {
    if attempts != [] {
      var user' := Login(c, user, attempts[0]).0;
      if attempts[0].at >= to {
        NothingAfter(c, user, attempts, from, to);
      } else if Login(c, user, attempts[0]).1 == Failed && user.failedLoginCount + 1 >= c.maxAttempts {
        LockedOut(c, user', attempts[1..], from, to);
      } else {
        WindowFromInside(c, user', attempts[1..], from, to);
      }
    }
  }

  lemma {:induction false} WindowBound(c: Config, user: User, attempts: seq<Attempt>, from: int, to: int)
    requires c.Valid() && user.failedLoginCount < c.maxAttempts
    requires InOrder(attempts) && NoSuccess(c, user, attempts, from, to) && to <= from + c.lockout
    ensures FailedIn(c, user, attempts, from, to) <= c.maxAttempts
    decreases |attempts|
  {
    if attempts != [] {
      if attempts[0].at < from {
        WindowBound(c, Login(c, user, attempts[0]).0, attempts[1..], from, to);
      } else {
        WindowFromInside(c, user, attempts, from, to);
      }
    }
  }

  lemma {:induction false} WindowsAdd(c: Config, user: User, attempts: seq<Attempt>, from: int, mid: int, to: int)
    requires from <= mid <= to
    ensures FailedIn(c, user, attempts, from, to)
         == FailedIn(c, user, attempts, from, mid) + FailedIn(c, user, attempts, mid, to)
    decreases |attempts|
  {
    if attempts != [] { WindowsAdd(c, Login(c, user, attempts[0]).0, attempts[1..], from, mid, to); }
  }

  /** Lockout periods needed to cover a duration, rounded up. */
  function Periods(duration: nat, lockout: nat): nat
    requires lockout >= 1
    decreases duration
  {
    if duration == 0 then 0 else if duration <= lockout then 1 else 1 + Periods(duration - lockout, lockout)
  }

  /** `Periods` is the duration over the lockout, rounded up: one period fewer falls short. */
  lemma {:induction false} PeriodsIsCeiling(duration: nat, lockout: nat)
    requires lockout >= 1
    ensures duration <= lockout * Periods(duration, lockout) < duration + lockout
    decreases duration
  {
    if duration > lockout {
      PeriodsIsCeiling(duration - lockout, lockout);
      OneMore(lockout, Periods(duration - lockout, lockout));
    }
  }

  /** Rate bound: in any half-open interval of any length without a success, at most
      `maxAttempts` password checks fail per started lockout period. */
  lemma {:induction false} FailedChecksAreBounded(c: Config, user: User, attempts: seq<Attempt>, from: int,
      duration: nat)
    requires c.Valid() && user.failedLoginCount < c.maxAttempts
    requires InOrder(attempts) && NoSuccess(c, user, attempts, from, from + duration)
    ensures FailedIn(c, user, attempts, from, from + duration) <= c.maxAttempts * Periods(duration, c.lockout)
    decreases duration
  {
    if duration == 0 {
      Empty(c, user, attempts, from);
    } else if duration <= c.lockout {
      WindowBound(c, user, attempts, from, from + duration);
    } else {
      var mid := from + c.lockout;
      WindowsAdd(c, user, attempts, from, mid, from + duration);
      NoSuccessWithin(c, user, attempts, from, from + duration, from, mid);
      NoSuccessWithin(c, user, attempts, from, from + duration, mid, from + duration);
      WindowBound(c, user, attempts, from, mid);
      FailedChecksAreBounded(c, user, attempts, mid, duration - c.lockout);
      OneMore(c.maxAttempts, Periods(duration - c.lockout, c.lockout));
    }
  }

  lemma OneMore(m: nat, n: nat)
    ensures m * (1 + n) == m + m * n
  {
  }

  lemma {:induction false} Empty(c: Config, user: User, attempts: seq<Attempt>, from: int)
    ensures FailedIn(c, user, attempts, from, from) == 0
    decreases |attempts|
  {
    if attempts != [] { Empty(c, Login(c, user, attempts[0]).0, attempts[1..], from); }
  }

  // ── The bound is exact ────────────────────────────────────────────────

  /** `n` wrong passwords at time `at`. */
  function Wrong(n: nat, at: int): seq<Attempt> { seq(n, _ => Attempt(at, true, false)) }

  lemma {:induction false} BurstFails(c: Config, user: User, n: nat, at: int, rest: seq<Attempt>, from: int, to: int)
    requires c.Valid() && 1 <= n && n + user.failedLoginCount == c.maxAttempts
    requires !IsLocked(user, at) && from <= at < to
    ensures FailedIn(c, user, Wrong(n, at) + rest, from, to)
         == n + FailedIn(c, User(0, Some(at + c.lockout)), rest, from, to)
    decreases n
  {
    var all := Wrong(n, at) + rest;
    assert all[0] == Attempt(at, true, false);
    assert all[1..] == Wrong(n - 1, at) + rest;
    if n > 1 {
      BurstFails(c, RegisterFailed(c, user, at), n - 1, at, rest, from, to);
    } else {
      assert all[1..] == rest;
    }
  }

  /** A burst at the start of each lockout period. */
  function Bursts(c: Config, periods: nat, at: int): seq<Attempt>
    decreases periods
  {
    if periods == 0 then [] else Wrong(c.maxAttempts, at) + Bursts(c, periods - 1, at + c.lockout)
  }

  /** Guessing in bursts meets the bound: no smaller one holds. */
  lemma {:induction false} BoundIsMet(c: Config, user: User, periods: nat, at: int, from: int, to: int)
    requires c.Valid() && user.failedLoginCount == 0 && !IsLocked(user, at)
    requires from <= at && to == at + periods * c.lockout
    ensures FailedIn(c, user, Bursts(c, periods, at), from, to) == c.maxAttempts * periods
    decreases periods
  {
    if periods > 0 {
      var locked := User(0, Some(at + c.lockout));
      assert to == at + c.lockout + (periods - 1) * c.lockout by { OneMore(c.lockout, periods - 1); }
      assert at < to by { assert (periods - 1) * c.lockout >= 0; }
      BurstFails(c, user, c.maxAttempts, at, Bursts(c, periods - 1, at + c.lockout), from, to);
      BoundIsMet(c, locked, periods - 1, at + c.lockout, from, to);
      assert c.maxAttempts * periods == c.maxAttempts + c.maxAttempts * (periods - 1) by {
        OneMore(c.maxAttempts, periods - 1);
      }
    }
  }

  // ── What an attempt answers ───────────────────────────────────────────

  /** Until the instant in `lockedUntil` an attempt is refused whatever its password, and
      an inactive account always; neither changes the row. Otherwise the password decides,
      and a right one clears the counter and the lock. */
  lemma AttemptAnswers(c: Config, user: User, a: Attempt)
    ensures var (after, outcome) := Login(c, user, a);
      var barred := user.lockedUntil.Some? && a.at < user.lockedUntil.value;
      && (outcome == Locked <==> barred)
      && (outcome == Inactive <==> !barred && !a.active)
      && (outcome == Failed <==> !barred && a.active && !a.passwordValid)
      && (outcome == Passed <==> !barred && a.active && a.passwordValid)
      && (outcome == Passed ==> after.failedLoginCount == 0 && after.lockedUntil == None)
      && (outcome == Locked || outcome == Inactive ==> after == user)
  {
  }

  lemma {:induction false} WrongsCount(c: Config, user: User, n: nat, at: int)
    requires !IsLocked(user, at) && user.failedLoginCount + n <= c.maxAttempts && user.failedLoginCount < c.maxAttempts
    ensures After(c, user, Wrong(n, at)) ==
        if user.failedLoginCount + n < c.maxAttempts then User(user.failedLoginCount + n, user.lockedUntil)
        else User(0, Some(at + c.lockout))
    decreases n
  {
    if n > 0 {
      var wrongs := Wrong(n, at);
      assert wrongs[0] == Attempt(at, true, false) && wrongs[1..] == Wrong(n - 1, at);
      var next := RegisterFailed(c, user, at);
      if n > 1 {
        WrongsCount(c, next, n - 1, at);
      } else {
        assert After(c, next, wrongs[1..]) == next;
      }
    }
  }

  /** After a successful login the full number of wrong passwords is needed again: the
      account is locked by `n` of them exactly when there are `maxAttempts`, and then
      exactly until the lockout is over. */
  lemma SuccessAllowsAFullRound(c: Config, user: User, n: nat, at: int, later: int, t: int)
    requires c.Valid() && n <= c.maxAttempts && !IsLocked(user, at)
    ensures var success := Attempt(at, true, true);
      IsLocked(After(c, user, [success] + Wrong(n, later)), t) <==> n == c.maxAttempts && t < later + c.lockout
  {
    var success := Attempt(at, true, true);
    assert ([success] + Wrong(n, later))[1..] == Wrong(n, later);
    WrongsCount(c, User(0, None), n, later);
  }

  // ── The service itself ────────────────────────────────────────────────

  class UsersService {
    const config: Config
    var failedLoginCount: nat
    var lockedUntil: Option<int>

    constructor (config: Config)
      ensures this.config == config && Row() == User(0, None)
    {
      this.config := config;
      failedLoginCount, lockedUntil := 0, None;
    }

    function Row(): User
      reads this
    {
      User(failedLoginCount, lockedUntil)
    }

    /** Increment first, then lock and reset when the threshold is reached. */
    method RegisterFailedLogin(now: int) returns (locked: bool)
      modifies this
      ensures Row() == RegisterFailed(config, old(Row()), now)
      ensures locked <==> old(failedLoginCount) + 1 >= config.maxAttempts
    {
      failedLoginCount := failedLoginCount + 1;
      if failedLoginCount >= config.maxAttempts {
        failedLoginCount := 0;
        lockedUntil := Some(now + config.lockout);
        return true;
      }
      return false;
    }

    method ResetFailedLogins()
      modifies this
      ensures Row() == User(0, None)
    {
      failedLoginCount, lockedUntil := 0, None;
    }

    /** The part of `AuthService.login` up to the password check's outcome. */
    method LoginAttempt(a: Attempt) returns (outcome: Outcome)
      modifies this
      ensures (Row(), outcome) == Login(config, old(Row()), a)
    {
      if lockedUntil.Some? && lockedUntil.value > a.at { return Locked; }
      if !a.active { return Inactive; }
      if !a.passwordValid {
        var locked := RegisterFailedLogin(a.at);
        return Failed;
      }
      ResetFailedLogins();
      return Passed;
    }
  }
}
