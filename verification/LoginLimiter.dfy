/** The login view's rate limiting, as it reads and writes the cache. */
module LoginLimiter {
  import opened TimedStore
  import opened LoginLockout

  datatype Page = LoginForm | TooManyAttempts(minutesLeft: int) | LoggedIn

  class Limiter {
    var attempts: Option<Entry<int>>
    var lockout: Option<Entry<real>>
    const ttl: real

    constructor (ttl: real)
      ensures this.ttl == ttl && View() == Cache(None, None)
    {
      this.ttl, attempts, lockout := ttl, None, None;
    }

    function View(): Cache
      reads this
    {
      Cache(attempts, lockout)
    }

    method CheckRateLimit(now: real) returns (verdict: Verdict)
      modifies this
      ensures View() == LoginLockout.CheckRateLimit(old(View()), now, ttl).0
      ensures verdict == LoginLockout.CheckRateLimit(old(View()), now, ttl).1
    {
      var count := if attempts.Some? then attempts.value.value else 0;
      if count >= MAX_LOGIN_ATTEMPTS {
        if lockout.Some? && lockout.value.value != 0.0 {
          var timeLeft := Truncate(lockout.value.value - now);
          if timeLeft > 0 {
            return Denied(timeLeft);
          } else {
            attempts := None;
            lockout := None;
            return Allowed;
          }
        }
        lockout := Some(Entry(now + LOCKOUT_TIME, now + ttl));
        return Denied(300);
      }
      verdict := Allowed;
    }

    /** `notified` says that administrators are told of a locked-out address. */
    method IncrementFailedAttempt(now: real) returns (notified: bool)
      modifies this
      ensures View() == LoginLockout.IncrementFailedAttempt(old(View()), now, ttl)
      ensures notified <==> Attempts(old(View())) + 1 >= MAX_LOGIN_ATTEMPTS
    {
      var count := (if attempts.Some? then attempts.value.value else 0) + 1;
      attempts := Some(Entry(count, now + ttl));
      notified := count >= MAX_LOGIN_ATTEMPTS;
      if notified {
        lockout := Some(Entry(now + LOCKOUT_TIME, now + ttl));
      }
    }

    method ResetFailedAttempts()
      modifies this
      ensures View() == Cache(None, None)
    {
      attempts := None;
      lockout := None;
    }

    /** One request that no other one interrupts: the check at `now`, and for a login the answer about the
        password `d` seconds later. */
    method LoginView(isPost: bool, authenticated: bool, now: real, d: real) returns (page: Page)
      requires 0.0 <= d
      modifies this
      ensures
        var (c, verdict) := LoginLockout.CheckRateLimit(old(View()), now, ttl);
        && View() == (if !isPost || verdict.Denied? then c
                      else if authenticated then Cache(None, None)
                      else LoginLockout.IncrementFailedAttempt(c, now + d, ttl))
        && page == if verdict.Denied? then TooManyAttempts(verdict.timeLeft / 60)
                   else if isPost && authenticated then LoggedIn else LoginForm
      ensures page.TooManyAttempts? ==>
        && Attempts(old(View())) >= 5
        && match old(lockout)
           case Some(Entry(until, _)) =>
             if until == 0.0 then page.minutesLeft == 5
             else 60.0 * page.minutesLeft as real <= until - now < 60.0 * page.minutesLeft as real + 60.0
           case None => page.minutesLeft == 5
    {
      var verdict := CheckRateLimit(now);
      if verdict.Denied? {
        if old(lockout).Some? && old(lockout).value.value != 0.0 {
          DeniedUntil(old(View()), now, ttl, old(lockout).value.value);
        }
        return TooManyAttempts(verdict.timeLeft / 60);
      }
      page := LoginForm;
      if isPost {
        if authenticated {
          ResetFailedAttempts();
          page := LoggedIn;
        } else {
          var _ := IncrementFailedAttempt(now + d);
        }
      }
    }
  }
}
