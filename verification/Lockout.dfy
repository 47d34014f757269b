/** How often a password can be tried while no attempt succeeds. Each login attempt is one step. */
module Lockout {
  import opened Wrappers
  import opened AuthService

  /** One attempt on an account: when it comes, and whether the password is right. */
  datatype Attempt = Attempt(now: int, correct: bool)

  predicate Checked(u: User, a: Attempt) {
    !IsLocked(u, a.now)
  }

  function NextUser(u: User, a: Attempt, max: int, duration: int): User {
    if !Checked(u, a) then u
    else if a.correct then FailuresReset(u)
    else FailedOnce(u, max, a.now + duration)
  }

  function After(u: User, attempts: seq<Attempt>, max: int, duration: int): User
    decreases |attempts|
  {
    if attempts == [] then u else After(NextUser(u, attempts[0], max, duration), attempts[1..], max, duration)
  }

  /** The times at which the password is compared: the attempts that find the account unlocked. */
  function Checks(u: User, attempts: seq<Attempt>, max: int, duration: int): seq<int>
    decreases |attempts|
  {
    if attempts == [] then []
    else
      (if Checked(u, attempts[0]) then [attempts[0].now] else [])
      + Checks(NextUser(u, attempts[0], max, duration), attempts[1..], max, duration)
  }

  predicate AllWrong(attempts: seq<Attempt>) {
    forall i :: 0 <= i < |attempts| ==> !attempts[i].correct
  }

  /** A locked account is not checked before the lock ends. */
  lemma {:induction false} LockHolds(u: User, attempts: seq<Attempt>, max: int, duration: int)
    requires u.lockedUntil.Some? && AllWrong(attempts)
    ensures var c := Checks(u, attempts, max, duration);
            c != [] ==> c[0] >= u.lockedUntil.value
    decreases |attempts|
  {
    if attempts != [] && !Checked(u, attempts[0]) {
      LockHolds(u, attempts[1..], max, duration);
    }
  }

  /** After a check that brings the failures to the limit, the next check comes a whole lockout later. */
  lemma {:induction false} ChecksAreApart(u: User, attempts: seq<Attempt>, max: int, duration: int, k: nat)
    requires AllWrong(attempts)
    requires k + 1 < |Checks(u, attempts, max, duration)| && u.failed + k + 1 >= max
    ensures Checks(u, attempts, max, duration)[k + 1] >= Checks(u, attempts, max, duration)[k] + duration
    decreases |attempts|
  {
    var a := attempts[0];
    var next := NextUser(u, a, max, duration);
    if !Checked(u, a) {
      ChecksAreApart(u, attempts[1..], max, duration, k);
    } else if k == 0 {
      LockHolds(next, attempts[1..], max, duration);
    } else {
      ChecksAreApart(next, attempts[1..], max, duration, k - 1);
    }
  }

  /** The (max + j)-th password check comes at least j lockouts after the max-th. */
  lemma {:induction false} ChecksTakeTime(u: User, attempts: seq<Attempt>, max: int, duration: int, j: nat)
    requires max >= 1 && AllWrong(attempts) && max - 1 + j < |Checks(u, attempts, max, duration)|
    ensures Checks(u, attempts, max, duration)[max - 1 + j] >= Checks(u, attempts, max, duration)[max - 1] + j * duration
  {
    if j > 0 {
      ChecksTakeTime(u, attempts, max, duration, j - 1);
      ChecksAreApart(u, attempts, max, duration, max - 2 + j);
      assert j * duration == (j - 1) * duration + duration;
    }
  }

  lemma {:induction false} ChecksAreAttempts(u: User, attempts: seq<Attempt>, max: int, duration: int, c: int)
    requires c in Checks(u, attempts, max, duration)
    ensures exists i :: 0 <= i < |attempts| && attempts[i].now == c
    decreases |attempts|
  {
    if !(Checked(u, attempts[0]) && c == attempts[0].now) {
      ChecksAreAttempts(NextUser(u, attempts[0], max, duration), attempts[1..], max, duration, c);
      var i :| 0 <= i < |attempts[1..]| && attempts[1..][i].now == c;
      assert attempts[i + 1].now == c;
    }
  }

  /** Every check of a wrong password is counted as a failure, and nothing else is. */
  lemma {:induction false} FailuresAreChecks(u: User, attempts: seq<Attempt>, max: int, duration: int)
    requires AllWrong(attempts)
    ensures After(u, attempts, max, duration).failed == u.failed + |Checks(u, attempts, max, duration)|
    decreases |attempts|
  {
    if attempts != [] {
      FailuresAreChecks(NextUser(u, attempts[0], max, duration), attempts[1..], max, duration);
    }
  }

  /** Within a time T, from any state of the account, at most max + floor(T / lockout) wrong passwords are compared. */
  lemma FailuresAreBounded(u: User, attempts: seq<Attempt>, max: int, duration: int, from: int, time: nat)
    requires max >= 1 && duration > 0 && AllWrong(attempts)
    requires forall i :: 0 <= i < |attempts| ==> from <= attempts[i].now <= from + time
    ensures After(u, attempts, max, duration).failed - u.failed <= max + time / duration
  {
    FailuresAreChecks(u, attempts, max, duration);
    var c := Checks(u, attempts, max, duration);
    if |c| > max {
      var j := |c| - max;
      ChecksTakeTime(u, attempts, max, duration, j);
      ChecksAreAttempts(u, attempts, max, duration, c[max - 1]);
      ChecksAreAttempts(u, attempts, max, duration, c[max - 1 + j]);
      Quotient(j, duration, time);
    }
  }

  lemma Cancel(j: nat, q: nat, d: int)
    requires d > 0 && j * d < (q + 1) * d
    ensures j <= q
  {
  }

  lemma Quotient(j: nat, duration: int, time: nat)
    requires duration > 0 && j * duration <= time
    ensures j <= time / duration
  {
    Cancel(j, time / duration, duration);
  }

  /** The bound is met: max checks at once, and one more each time a lock runs out. */
  lemma {:induction false} BoundIsMet(u: User, max: int, duration: int, at: int, n: nat)
    requires max >= 1 && duration >= 0 && u.failed + 1 >= max && u.lockedUntil == Some(at)
    ensures |Checks(u, seq(n, i requires 0 <= i < n => Attempt(at + i * duration, false)), max, duration)| == n
    decreases n
  {
    var attempts := seq(n, i requires 0 <= i < n => Attempt(at + i * duration, false));
    if n > 0 {
      var next := NextUser(u, attempts[0], max, duration);
      var rest := seq(n - 1, i requires 0 <= i < n - 1 => Attempt(at + duration + i * duration, false));
      forall i | 0 <= i < n - 1 ensures attempts[1..][i] == rest[i] {
        assert (i + 1) * duration == i * duration + duration;
      }
      assert attempts[1..] == rest;
      BoundIsMet(next, max, duration, at + duration, n - 1);
    }
  }

  // ---------------------------------------------------------------- the service takes these steps

  lemma LoginIsAttempt(cfg: Config, before: Db, next: Db, id: UserId, a: LoginAttempt, drawn: New, issues: bool, r: Result<Hash, Error>)
    requires id in before.users && Attempted(cfg, before, next, id, a, drawn, issues, r)
    ensures next.users == before.users[id := NextUser(before.users[id], Attempt(a.now, cfg.verify(before.users[id].password, a.password)),
                                                     cfg.lockoutMaxFailed, cfg.lockoutDuration)]
    ensures r == Err(AccountLocked) <==> IsLocked(before.users[id], a.now)
  {
  }
}
