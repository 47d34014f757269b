/**
 Logging in, refreshing, logging out and resetting a password. Each service call is one step.

 A token is named by its hash. Randomness is a parameter: new hashes and families have not been used before.
 `issues` tells whether signing and storing a new token pair succeeds; what came before it stays done.
 */
module AuthService {
  import opened Wrappers

  type UserId = string
  type FamilyId = string
  type Hash = string

  datatype User = User(password: string, failed: nat, lockedUntil: Option<int>)

  datatype Token = Token(user: UserId, family: FamilyId, expiresAt: int, revoked: bool)

  datatype Reset = Reset(user: UserId, expiresAt: int, used: bool)

  datatype Db = Db(users: map<UserId, User>, emails: map<string, UserId>, tokens: map<Hash, Token>, resets: map<Hash, Reset>)

  datatype Config = Config(lockoutMaxFailed: int, lockoutDuration: int, refreshTtl: int,
                           normalizeEmail: string -> string, verify: (string, string) -> bool, hashPassword: string -> string)

  datatype Error =
    | InvalidCredentials | AccountLocked | InvalidRefreshToken | RefreshExpired | RefreshReuse
    | WeakPassword | InvalidResetToken | Internal

  /** What the random source hands out for one call. */
  datatype New = New(family: FamilyId, hash: Hash)

  // ---------------------------------------------------------------- single statements

  predicate IsLocked(u: User, now: int) {
    u.lockedUntil.Some? && now < u.lockedUntil.value
  }

  function FailedOnce(u: User, maxFailed: int, lockUntil: int): User {
    u.(failed := u.failed + 1, lockedUntil := if u.failed + 1 >= maxFailed then Some(lockUntil) else u.lockedUntil)
  }

  function FailuresReset(u: User): User {
    u.(failed := 0, lockedUntil := None)
  }

  function FamilyRevoked(tokens: map<Hash, Token>, family: FamilyId): map<Hash, Token> {
    map h | h in tokens :: if tokens[h].family == family then tokens[h].(revoked := true) else tokens[h]
  }

  function UserRevoked(tokens: map<Hash, Token>, user: UserId): map<Hash, Token> {
    map h | h in tokens :: if tokens[h].user == user then tokens[h].(revoked := true) else tokens[h]
  }

  function Revoked(tokens: map<Hash, Token>, h: Hash): map<Hash, Token>
    requires h in tokens
  {
    tokens[h := tokens[h].(revoked := true)]
  }

  predicate Live(tokens: map<Hash, Token>, h: Hash) {
    h in tokens && !tokens[h].revoked
  }

  // ---------------------------------------------------------------- what a call does to the tokens

  datatype TokenStep =
    | Issue(user: UserId, family: FamilyId, hash: Hash, expiresAt: int)
    | Refresh(presented: Hash, hash: Hash, now: int, expiresAt: int, knownUser: bool, issues: bool)
    | Logout(hash: Hash)
    | RevokeUser(user: UserId)

  function NextTokens(tokens: map<Hash, Token>, step: TokenStep): map<Hash, Token> {
    match step
    case Issue(user, family, hash, expiresAt) => tokens[hash := Token(user, family, expiresAt, false)]
    case Refresh(presented, hash, now, expiresAt, knownUser, issues) =>
      if presented !in tokens then tokens
      else
        var t := tokens[presented];
        if t.revoked then FamilyRevoked(tokens, t.family)
        else if now > t.expiresAt || !knownUser then tokens
        else
          var rotated := Revoked(tokens, presented);
          if issues then rotated[hash := Token(t.user, t.family, expiresAt, false)] else rotated
    case Logout(hash) => if hash in tokens then Revoked(tokens, hash) else tokens
    case RevokeUser(user) => UserRevoked(tokens, user)
  }

  function RefreshAnswer(tokens: map<Hash, Token>, step: TokenStep): Result<Hash, Error>
    requires step.Refresh?
  {
    if step.presented !in tokens then Err(InvalidRefreshToken)
    else if tokens[step.presented].revoked then Err(RefreshReuse)
    else if step.now > tokens[step.presented].expiresAt then Err(RefreshExpired)
    else if !step.knownUser || !step.issues then Err(Internal)
    else Ok(step.hash)
  }

  // ---------------------------------------------------------------- the service

  class Service {
    const cfg: Config
    var db: Db

    constructor (cfg: Config, db: Db)
      ensures this.cfg == cfg && this.db == db
    {
      this.cfg := cfg;
      this.db := db;
    }

    method IssueTokensInFamily(user: UserId, family: FamilyId, now: int, hash: Hash, issues: bool) returns (r: Result<Hash, Error>)
      modifies this
      ensures r == if issues then Ok(hash) else Err(Internal)
      ensures db == if issues then old(db).(tokens := NextTokens(old(db).tokens, Issue(user, family, hash, now + cfg.refreshTtl))) else old(db)
    {
      if !issues { return Err(Internal); }
      db := db.(tokens := db.tokens[hash := Token(user, family, now + cfg.refreshTtl, false)]);
      return Ok(hash);
    }

    method Login(email: string, password: string, now: int, drawn: New, issues: bool) returns (r: Result<Hash, Error>)
      requires forall e :: e in db.emails ==> db.emails[e] in db.users
      modifies this
      ensures db.emails == old(db).emails && db.resets == old(db).resets
      ensures cfg.normalizeEmail(email) !in db.emails ==> r == Err(InvalidCredentials) && db == old(db)
      ensures cfg.normalizeEmail(email) in db.emails ==>
        Attempted(cfg, old(db), db, db.emails[cfg.normalizeEmail(email)], LoginAttempt(password, now), drawn, issues, r)
    {
      var key := cfg.normalizeEmail(email);
      if key !in db.emails { return Err(InvalidCredentials); }
      var id := db.emails[key];
      var u := db.users[id];
      if IsLocked(u, now) { return Err(AccountLocked); }
      if !cfg.verify(u.password, password) {
        var lockUntil := now + cfg.lockoutDuration;
        db := db.(users := db.users[id := FailedOnce(u, cfg.lockoutMaxFailed, lockUntil)]);
        return Err(InvalidCredentials);
      }
      db := db.(users := db.users[id := FailuresReset(u)]);
      r := IssueTokensInFamily(id, drawn.family, now, drawn.hash, issues);
    }

    method Refresh(presented: Hash, now: int, drawn: New, issues: bool) returns (r: Result<Hash, Error>)
      modifies this
      ensures db == old(db).(tokens := NextTokens(old(db).tokens, RefreshOf(cfg, old(db), presented, now, drawn, issues)))
      ensures r == RefreshAnswer(old(db).tokens, RefreshOf(cfg, old(db), presented, now, drawn, issues))
    {
      if presented !in db.tokens { return Err(InvalidRefreshToken); }
      var rt := db.tokens[presented];
      if rt.revoked {
        db := db.(tokens := FamilyRevoked(db.tokens, rt.family));
        return Err(RefreshReuse);
      }
      if now > rt.expiresAt { return Err(RefreshExpired); }
      if rt.user !in db.users { return Err(Internal); }
      db := db.(tokens := Revoked(db.tokens, presented));
      r := IssueTokensInFamily(rt.user, rt.family, now, drawn.hash, issues);
    }

    method Logout(hash: Hash)
      modifies this
      ensures db == if hash == "" then old(db) else old(db).(tokens := NextTokens(old(db).tokens, TokenStep.Logout(hash)))
    {
      if hash == "" { return; }
      if hash !in db.tokens { return; }
      db := db.(tokens := Revoked(db.tokens, hash));
    }

    method ConfirmPasswordReset(hash: Hash, password: string, now: int) returns (r: Result<(), Error>)
      requires forall h :: h in db.resets ==> db.resets[h].user in db.users
      modifies this
      ensures r.Ok? <==> 8 <= |password| <= 128 && hash in old(db).resets && !old(db).resets[hash].used && now <= old(db).resets[hash].expiresAt
      ensures r.Err? ==> db == old(db) && r.error == if 8 <= |password| <= 128 then InvalidResetToken else WeakPassword
      ensures r.Ok? ==> ResetDone(cfg, old(db), db, hash, password)
    {
      if |password| < 8 || |password| > 128 { return Err(WeakPassword); }
      if hash !in db.resets { return Err(InvalidResetToken); }
      var pr := db.resets[hash];
      if pr.used || now > pr.expiresAt { return Err(InvalidResetToken); }
      var newHash := cfg.hashPassword(password);
      db := db.(resets := db.resets[hash := pr.(used := true)]);
      db := db.(users := db.users[pr.user := db.users[pr.user].(password := newHash)]);
      db := db.(tokens := UserRevoked(db.tokens, pr.user));
      return Ok(());
    }
  }

  datatype LoginAttempt = LoginAttempt(password: string, now: int)

  function RefreshOf(cfg: Config, db: Db, presented: Hash, now: int, drawn: New, issues: bool): (s: TokenStep)
    ensures s.Refresh?
  {
    TokenStep.Refresh(presented, drawn.hash, now, now + cfg.refreshTtl, presented in db.tokens && db.tokens[presented].user in db.users, issues)
  }

  /** What a login attempt on a known account does: the account, the tokens and the answer. */
  predicate Attempted(cfg: Config, before: Db, after: Db, id: UserId, a: LoginAttempt, drawn: New, issues: bool, r: Result<Hash, Error>)
    requires id in before.users
  {
    var u := before.users[id];
    if IsLocked(u, a.now) then r == Err(AccountLocked) && after == before
    else if !cfg.verify(u.password, a.password) then
      r == Err(InvalidCredentials) &&
      after == before.(users := before.users[id := FailedOnce(u, cfg.lockoutMaxFailed, a.now + cfg.lockoutDuration)])
    else
      after.users == before.users[id := FailuresReset(u)] &&
      if issues then r == Ok(drawn.hash) && after.tokens == NextTokens(before.tokens, Issue(id, drawn.family, drawn.hash, a.now + cfg.refreshTtl))
      else r == Err(Internal) && after.tokens == before.tokens
  }

  /** A finished reset: the token is spent, the password replaced and every session of the user ended. */
  predicate ResetDone(cfg: Config, before: Db, after: Db, hash: Hash, password: string)
    requires hash in before.resets && before.resets[hash].user in before.users
  {
    var user := before.resets[hash].user;
    after.resets == before.resets[hash := before.resets[hash].(used := true)] &&
    after.users == before.users[user := before.users[user].(password := cfg.hashPassword(password))] &&
    after.tokens == NextTokens(before.tokens, RevokeUser(user)) && after.emails == before.emails
  }
}
