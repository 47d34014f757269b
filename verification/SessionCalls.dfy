/**
 What a login, a refresh, a logout and a password reset do to an account and its tokens, said by times, counts and rows.
 */
module SessionCalls {
  import opened Wrappers
  import opened AuthService
  import Lockout

  /** The account is locked while the time of its lock has not come. */
  predicate LockedAt(u: User, now: int) {
    match u.lockedUntil
    case None => false
    case Some(end) => now < end
  }

  /** A login while the account is locked compares nothing and changes nothing. */
  lemma LockedLogin(cfg: Config, before: Db, after: Db, id: UserId, a: LoginAttempt, drawn: New, issues: bool, r: Result<Hash, Error>)
    requires id in before.users && Attempted(cfg, before, after, id, a, drawn, issues, r)
    ensures r == Err(AccountLocked) <==> LockedAt(before.users[id], a.now)
    ensures LockedAt(before.users[id], a.now) ==> after == before
  {
  }

  /** A wrong password adds one failure; at the limit it locks the account for the lockout's duration, below it the lock stays as it was. */
  lemma WrongLogin(cfg: Config, before: Db, after: Db, id: UserId, a: LoginAttempt, drawn: New, issues: bool, r: Result<Hash, Error>)
    requires id in before.users && Attempted(cfg, before, after, id, a, drawn, issues, r)
    requires !LockedAt(before.users[id], a.now) && !cfg.verify(before.users[id].password, a.password)
    ensures r == Err(InvalidCredentials) && after == before.(users := after.users)
    ensures id in after.users && after.users == before.users[id := after.users[id]]
    ensures var u, v := before.users[id], after.users[id];
            && v.password == u.password && v.failed == u.failed + 1
            && v.lockedUntil == if u.failed + 1 >= cfg.lockoutMaxFailed then Some(a.now + cfg.lockoutDuration) else u.lockedUntil
  {
  }

  /** The right one clears the failures and the lock, and starts a family of tokens with one that is good for the refresh time. */
  lemma RightLogin(cfg: Config, before: Db, after: Db, id: UserId, a: LoginAttempt, drawn: New, issues: bool, r: Result<Hash, Error>)
    requires id in before.users && Attempted(cfg, before, after, id, a, drawn, issues, r)
    requires !LockedAt(before.users[id], a.now) && cfg.verify(before.users[id].password, a.password)
    ensures after.users == before.users[id := User(before.users[id].password, 0, None)]
    ensures issues ==> r == Ok(drawn.hash) && after.tokens == before.tokens[drawn.hash := Token(id, drawn.family, a.now + cfg.refreshTtl, false)]
    ensures !issues ==> r == Err(Internal) && after.tokens == before.tokens
  {
  }

  /** After a right password the next `max` wrong ones are all compared, whenever they come. */
  lemma {:induction false} SuccessStartsAfresh(u: User, attempts: seq<Lockout.Attempt>, max: int, duration: int)
    requires u.lockedUntil == None && u.failed + |attempts| <= max && Lockout.AllWrong(attempts)
    ensures |Lockout.Checks(u, attempts, max, duration)| == |attempts|
    decreases |attempts|
  {
    if |attempts| == 1 {
      assert Lockout.Checks(Lockout.NextUser(u, attempts[0], max, duration), attempts[1..], max, duration) == [];
    } else if attempts != [] {
      SuccessStartsAfresh(Lockout.NextUser(u, attempts[0], max, duration), attempts[1..], max, duration);
    }
  }

  lemma SuccessClears(u: User, a: Lockout.Attempt, attempts: seq<Lockout.Attempt>, max: int, duration: int)
    requires Lockout.Checked(u, a) && a.correct && |attempts| <= max && Lockout.AllWrong(attempts)
    ensures |Lockout.Checks(Lockout.NextUser(u, a, max, duration), attempts, max, duration)| == |attempts|
  {
    SuccessStartsAfresh(Lockout.NextUser(u, a, max, duration), attempts, max, duration);
  }

  // ---------------------------------------------------------------- tokens

  /** What a refresh answers, and which rows it writes: by whether the token is known, revoked, or past its time. */
  lemma RefreshMeans(tokens: map<Hash, Token>, s: TokenStep)
    requires s.Refresh?
    ensures var after, answer := NextTokens(tokens, s), RefreshAnswer(tokens, s);
            && (s.presented !in tokens ==> answer == Err(InvalidRefreshToken) && after == tokens)
            && (s.presented in tokens && tokens[s.presented].revoked ==>
                  answer == Err(RefreshReuse) && RevokedWhere(tokens, after, (t: Token) => t.family == tokens[s.presented].family))
            && (s.presented in tokens && !tokens[s.presented].revoked && tokens[s.presented].expiresAt < s.now ==>
                  answer == Err(RefreshExpired) && after == tokens)
            && (s.presented in tokens && !tokens[s.presented].revoked && s.now <= tokens[s.presented].expiresAt && !s.knownUser ==>
                  answer == Err(Internal) && after == tokens)
  {
  }

  /** An unrevoked token of a user that exists is good up to and including its last moment: it is spent, and a new one of its family and user comes in its place. */
  lemma RefreshExchanges(tokens: map<Hash, Token>, s: TokenStep)
    requires s.Refresh? && s.knownUser && s.hash !in tokens
    requires s.presented in tokens && !tokens[s.presented].revoked && s.now <= tokens[s.presented].expiresAt
    ensures var after, answer, t := NextTokens(tokens, s), RefreshAnswer(tokens, s), tokens[s.presented];
            && s.presented in after && after[s.presented] == Token(t.user, t.family, t.expiresAt, true)
            && (forall h :: h != s.presented && h in tokens ==> h in after && after[h] == tokens[h])
            && (if s.issues then answer == Ok(s.hash) && s.hash in after && after[s.hash] == Token(t.user, t.family, s.expiresAt, false)
                else answer == Err(Internal) && s.hash !in after)
            && (forall h :: h in after ==> h in tokens || h == s.hash)
  {
  }

  /** The service presents the token at the time of the call, and a new one lasts the refresh time from then. */
  lemma RefreshIsOf(cfg: Config, db: Db, presented: Hash, now: int, drawn: New, issues: bool)
    ensures var s := RefreshOf(cfg, db, presented, now, drawn, issues);
            && s.presented == presented && s.now == now && s.expiresAt == now + cfg.refreshTtl && s.hash == drawn.hash && s.issues == issues
            && (s.knownUser <==> presented in db.tokens && db.tokens[presented].user in db.users)
  {
  }

  /** Exactly the tokens of the kind are revoked now; nothing else about any token changes. */
  ghost predicate RevokedWhere(tokens: map<Hash, Token>, after: map<Hash, Token>, kind: Token -> bool) {
    after.Keys == tokens.Keys && forall h :: h in tokens ==>
      after[h] == Token(tokens[h].user, tokens[h].family, tokens[h].expiresAt, tokens[h].revoked || kind(tokens[h]))
  }

  /** Logging out revokes the one token; a password reset revokes the user's, and a token of nobody else. */
  lemma RevocationsMean(tokens: map<Hash, Token>, h: Hash, user: UserId)
    ensures h !in tokens ==> NextTokens(tokens, TokenStep.Logout(h)) == tokens
    ensures h in tokens ==> NextTokens(tokens, TokenStep.Logout(h)) == tokens[h := Token(tokens[h].user, tokens[h].family, tokens[h].expiresAt, true)]
    ensures RevokedWhere(tokens, NextTokens(tokens, RevokeUser(user)), (t: Token) => t.user == user)
  {
  }
}
