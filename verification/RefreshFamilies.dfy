/** What refresh-token rotation guarantees over whole runs of logins, refreshes, logouts and password resets that follow one another. */
module RefreshFamilies {
  import opened Wrappers
  import opened AuthService

  type Tokens = map<Hash, Token>

  ghost predicate Known(tokens: Tokens, f: FamilyId) {
    exists h :: h in tokens && tokens[h].family == f
  }

  /** New hashes and new families have not been used before. */
  ghost predicate Enabled(tokens: Tokens, step: TokenStep) {
    (step.Issue? ==> step.hash !in tokens && !Known(tokens, step.family)) && (step.Refresh? ==> step.hash !in tokens)
  }

  ghost predicate Possible(tokens: Tokens, steps: seq<TokenStep>)
    decreases |steps|
  {
    steps == [] || (Enabled(tokens, steps[0]) && Possible(NextTokens(tokens, steps[0]), steps[1..]))
  }

  function Run(tokens: Tokens, steps: seq<TokenStep>): Tokens
    decreases |steps|
  {
    if steps == [] then tokens else Run(NextTokens(tokens, steps[0]), steps[1..])
  }

  // ---------------------------------------------------------------- one live token in a family

  ghost predicate OneLive(tokens: Tokens) {
    forall g, h :: Live(tokens, g) && Live(tokens, h) && tokens[g].family == tokens[h].family ==> g == h
  }

  ghost predicate OneUser(tokens: Tokens) {
    forall g, h :: g in tokens && h in tokens && tokens[g].family == tokens[h].family ==> tokens[g].user == tokens[h].user
  }

  /** No step brings a revoked token back or forgets or rewrites one; a live token that appears is the new one. */
  ghost predicate OnlyAdds(tokens: Tokens, next: Tokens, step: TokenStep) {
    (forall h :: h in tokens ==> h in next && next[h].family == tokens[h].family && next[h].user == tokens[h].user) &&
    (forall h :: h in tokens && Live(next, h) ==> Live(tokens, h)) &&
    (forall h :: h in next && h !in tokens ==> (step.Issue? || step.Refresh?) && h == step.hash)
  }

  lemma StepOnlyAdds(tokens: Tokens, step: TokenStep)
    requires Enabled(tokens, step)
    ensures OnlyAdds(tokens, NextTokens(tokens, step), step)
  {
  }

  /** A token that a refresh adds takes the place of the only live one in its family. */
  lemma RefreshReplaces(tokens: Tokens, step: TokenStep)
    requires step.Refresh? && Enabled(tokens, step) && step.hash in NextTokens(tokens, step)
    ensures var next := NextTokens(tokens, step);
            && Live(tokens, step.presented) && !Live(next, step.presented) && step.presented in next
            && next[step.hash].family == tokens[step.presented].family && next[step.hash].user == tokens[step.presented].user
  {
  }

  lemma IssueStarts(tokens: Tokens, step: TokenStep)
    requires step.Issue? && Enabled(tokens, step)
    ensures NextTokens(tokens, step)[step.hash].family == step.family
    ensures forall h :: h in tokens ==> tokens[h].family != step.family
  {
    forall h | h in tokens ensures tokens[h].family != step.family {
      assert Known(tokens, tokens[h].family);
    }
  }

  lemma StepKeepsOneLive(tokens: Tokens, step: TokenStep)
    requires OneLive(tokens) && OneUser(tokens) && Enabled(tokens, step)
    ensures OneLive(NextTokens(tokens, step)) && OneUser(NextTokens(tokens, step))
  {
    StepOnlyAdds(tokens, step);
    if step.Issue? {
      IssueStarts(tokens, step);
    } else if step.Refresh? && step.hash in NextTokens(tokens, step) {
      RefreshReplaces(tokens, step);
    }
  }

  /** In every reachable state each family has at most one unrevoked token, and one user. */
  lemma {:induction false} OneLiveAlways(tokens: Tokens, steps: seq<TokenStep>)
    requires OneLive(tokens) && OneUser(tokens) && Possible(tokens, steps)
    ensures OneLive(Run(tokens, steps)) && OneUser(Run(tokens, steps))
    decreases |steps|
  {
    if steps != [] {
      StepKeepsOneLive(tokens, steps[0]);
      OneLiveAlways(NextTokens(tokens, steps[0]), steps[1..]);
    }
  }

  // ---------------------------------------------------------------- a family that has died

  ghost predicate Dead(tokens: Tokens, f: FamilyId) {
    Known(tokens, f) && forall h :: Live(tokens, h) ==> tokens[h].family != f
  }

  lemma StepKeepsDead(tokens: Tokens, step: TokenStep, f: FamilyId)
    requires Dead(tokens, f) && Enabled(tokens, step)
    ensures Dead(NextTokens(tokens, step), f)
  {
    StepOnlyAdds(tokens, step);
    var h :| h in tokens && tokens[h].family == f;
    assert NextTokens(tokens, step)[h].family == f;
    if step.Issue? {
      IssueStarts(tokens, step);
    } else if step.Refresh? && step.hash in NextTokens(tokens, step) {
      RefreshReplaces(tokens, step);
    }
  }

  /** A family with no unrevoked token never gets one again. */
  lemma {:induction false} DeadStaysDead(tokens: Tokens, steps: seq<TokenStep>, f: FamilyId)
    requires Dead(tokens, f) && Possible(tokens, steps)
    ensures Dead(Run(tokens, steps), f)
    decreases |steps|
  {
    if steps != [] {
      StepKeepsDead(tokens, steps[0], f);
      DeadStaysDead(NextTokens(tokens, steps[0]), steps[1..], f);
    }
  }

  /** Presenting a revoked token ends its family. */
  lemma ReuseKills(tokens: Tokens, step: TokenStep)
    requires step.Refresh? && step.presented in tokens && tokens[step.presented].revoked
    ensures Dead(NextTokens(tokens, step), tokens[step.presented].family)
  {
    var next := NextTokens(tokens, step);
    assert step.presented in next && next[step.presented].family == tokens[step.presented].family;
  }

  /** Logging out ends the family exactly when the token was its live one, or the family was dead already. */
  lemma LogoutKillsIff(tokens: Tokens, h: Hash)
    requires OneLive(tokens) && h in tokens
    ensures Dead(NextTokens(tokens, Logout(h)), tokens[h].family) <==> Live(tokens, h) || Dead(tokens, tokens[h].family)
  {
    var f, next := tokens[h].family, NextTokens(tokens, Logout(h));
    assert Known(tokens, f) && next[h].family == f && Known(next, f);
    assert forall g :: Live(next, g) <==> Live(tokens, g) && g != h;
    if !Live(tokens, h) && !Dead(tokens, f) {
      var g :| Live(tokens, g) && tokens[g].family == f;
      assert Live(next, g) && next[g].family == f;
    }
  }

  /** A password reset ends every family of the user, and no other. */
  lemma ResetKillsAll(tokens: Tokens, user: UserId, h: Hash)
    requires OneUser(tokens) && h in tokens
    ensures var next := NextTokens(tokens, RevokeUser(user));
            if tokens[h].user == user then Dead(next, tokens[h].family) else Live(next, h) == Live(tokens, h)
  {
    var next := NextTokens(tokens, RevokeUser(user));
    assert h in next && next[h].family == tokens[h].family;
    assert Known(next, tokens[h].family);
  }

  // ---------------------------------------------------------------- a token refreshes once

  predicate Refreshes(tokens: Tokens, step: TokenStep, h: Hash) {
    step.Refresh? && step.presented == h && RefreshAnswer(tokens, step).Ok?
  }

  /** How often a token is exchanged for a new one over a run. */
  function Exchanges(tokens: Tokens, steps: seq<TokenStep>, h: Hash): nat
    decreases |steps|
  {
    if steps == [] then 0
    else (if Refreshes(tokens, steps[0], h) then 1 else 0) + Exchanges(NextTokens(tokens, steps[0]), steps[1..], h)
  }

  lemma {:induction false} SpentNeverExchanges(tokens: Tokens, steps: seq<TokenStep>, h: Hash)
    requires Possible(tokens, steps) && h in tokens && tokens[h].revoked
    ensures Exchanges(tokens, steps, h) == 0
    decreases |steps|
  {
    if steps != [] {
      StepOnlyAdds(tokens, steps[0]);
      SpentNeverExchanges(NextTokens(tokens, steps[0]), steps[1..], h);
    }
  }

  /** Over any run a refresh token is exchanged at most once. */
  lemma {:induction false} ExchangedAtMostOnce(tokens: Tokens, steps: seq<TokenStep>, h: Hash)
    requires Possible(tokens, steps)
    ensures Exchanges(tokens, steps, h) <= 1
    decreases |steps|
  {
    if steps != [] {
      var next := NextTokens(tokens, steps[0]);
      if Refreshes(tokens, steps[0], h) {
        RefreshReplaces(tokens, steps[0]);
        SpentNeverExchanges(next, steps[1..], h);
      } else {
        ExchangedAtMostOnce(next, steps[1..], h);
      }
    }
  }

  /** Once a token has been exchanged, presenting it again ends its family for the rest of the run. */
  lemma ReplayEndsFamily(tokens: Tokens, first: TokenStep, between: seq<TokenStep>, again: TokenStep, after: seq<TokenStep>)
    requires first.Refresh? && Refreshes(tokens, first, first.presented) && Enabled(tokens, first)
    requires again.Refresh? && again.presented == first.presented
    requires Possible(NextTokens(tokens, first), between)
    requires var mid := Run(NextTokens(tokens, first), between); Enabled(mid, again) && Possible(NextTokens(mid, again), after)
    ensures var end := Run(NextTokens(Run(NextTokens(tokens, first), between), again), after);
            Dead(end, tokens[first.presented].family)
  {
    var next := NextTokens(tokens, first);
    RefreshReplaces(tokens, first);
    StepOnlyAdds(tokens, first);
    StaysRevoked(next, between, first.presented);
    var mid := Run(next, between);
    ReuseKills(mid, again);
    DeadStaysDead(NextTokens(mid, again), after, tokens[first.presented].family);
  }

  lemma {:induction false} StaysRevoked(tokens: Tokens, steps: seq<TokenStep>, h: Hash)
    requires Possible(tokens, steps) && h in tokens && tokens[h].revoked
    ensures var end := Run(tokens, steps);
            h in end && end[h].revoked && end[h].family == tokens[h].family
    decreases |steps|
  {
    if steps != [] {
      StepOnlyAdds(tokens, steps[0]);
      StaysRevoked(NextTokens(tokens, steps[0]), steps[1..], h);
    }
  }
}
