/**
 Refreshes, logouts and password resets whose statements interleave.

 One database statement is a step, and a step that is not enabled changes nothing. A refresh reads its token, revokes
 it without looking how many rows that changed, and inserts the new one. Ids of calls are not used twice.
 */
module RefreshCalls {
  import opened Wrappers
  import opened AuthService
  import opened RefreshFamilies
  import Induction

  datatype Call =
    | Found(hash: Hash)      // a refresh that has found its token unrevoked and unexpired
    | Spent(hash: Hash)      // … and has revoked it
    | Reusing(family: FamilyId) // a refresh that has found its token revoked
    | LoggingOut(hash: Hash)

  /** `parent` tells for which token a token was given in exchange. */
  datatype World = World(tokens: Tokens, parent: map<Hash, Hash>, calls: map<int, Call>, started: set<int>)

  datatype Step =
    | Begin(user: UserId, family: FamilyId, hash: Hash, expiresAt: int) // a login or registration
    | Read(c: int, hash: Hash, now: int)
    | Spend(c: int)
    | Grant(c: int, hash: Hash, expiresAt: int)
    | EndFamily(c: int)
    | ReadLogout(c: int, hash: Hash)
    | RevokeOne(c: int)
    | EndUser(user: UserId)      // the last statement of a password reset
    | Quit(c: int)               // a call stops, or fails

  predicate CanGrant(w: World, s: Step) {
    s.Grant? && s.c in w.calls && w.calls[s.c].Spent? && w.calls[s.c].hash in w.tokens && s.hash !in w.tokens
  }

  function Granted(w: World, s: Step): World
    requires CanGrant(w, s)
  {
    var h := w.calls[s.c].hash;
    w.(tokens := w.tokens[s.hash := Token(w.tokens[h].user, w.tokens[h].family, s.expiresAt, false)],
       parent := w.parent[s.hash := h], calls := w.calls - {s.c})
  }

  function Looked(w: World, c: int, h: Hash, now: int): World
    requires h in w.tokens
  {
    if w.tokens[h].revoked then w.(calls := w.calls[c := Reusing(w.tokens[h].family)], started := w.started + {c})
    else if now > w.tokens[h].expiresAt then w
    else w.(calls := w.calls[c := Found(h)], started := w.started + {c})
  }

  ghost function Next(w: World, s: Step): World {
    match s
    case Begin(user, family, hash, expiresAt) =>
      if hash in w.tokens || Known(w.tokens, family) then w else w.(tokens := w.tokens[hash := Token(user, family, expiresAt, false)])
    case Read(c, h, now) => if c in w.started || h !in w.tokens then w else Looked(w, c, h, now)
    case Spend(c) =>
      if c in w.calls && w.calls[c].Found? && w.calls[c].hash in w.tokens then
        w.(tokens := Revoked(w.tokens, w.calls[c].hash), calls := w.calls[c := Spent(w.calls[c].hash)])
      else w
    case Grant(_, _, _) => if CanGrant(w, s) then Granted(w, s) else w
    case EndFamily(c) =>
      if c in w.calls && w.calls[c].Reusing? then w.(tokens := FamilyRevoked(w.tokens, w.calls[c].family), calls := w.calls - {c}) else w
    case ReadLogout(c, h) =>
      if c in w.started || h !in w.tokens then w else w.(calls := w.calls[c := LoggingOut(h)], started := w.started + {c})
    case RevokeOne(c) =>
      if c in w.calls && w.calls[c].LoggingOut? && w.calls[c].hash in w.tokens then
        w.(tokens := Revoked(w.tokens, w.calls[c].hash), calls := w.calls - {c})
      else w
    case EndUser(user) => w.(tokens := UserRevoked(w.tokens, user))
    case Quit(c) => w.(calls := w.calls - {c})
  }

  ghost function Run(w: World, steps: seq<Step>): World
    decreases |steps|
  {
    if steps == [] then w else Next(Run(w, steps[..|steps| - 1]), steps[|steps| - 1])
  }

  ghost function After(w: World, steps: seq<Step>, k: nat): World
    requires k <= |steps|
  {
    Run(w, steps[..k])
  }

  lemma AfterNext(w: World, steps: seq<Step>, k: nat)
    requires k < |steps|
    ensures After(w, steps, k + 1) == Next(After(w, steps, k), steps[k])
  {
    assert steps[..k + 1][..k] == steps[..k];
  }

  // ---------------------------------------------------------------- what every run keeps

  predicate CallOk(w: World, call: Call) {
    match call
    case Found(h) => h in w.tokens
    case Spent(h) => h in w.tokens && w.tokens[h].revoked
    case Reusing(_) => true
    case LoggingOut(h) => h in w.tokens
  }

  /** A token that was given in exchange: for a revoked one of its own family and user. */
  predicate ParentOk(w: World, n: Hash, h: Hash) {
    n in w.tokens && h in w.tokens && w.tokens[h].revoked && w.tokens[h].family == w.tokens[n].family && w.tokens[h].user == w.tokens[n].user
  }

  ghost predicate Inv(w: World) {
    w.calls.Keys <= w.started && (forall c :: c in w.calls ==> CallOk(w, w.calls[c])) &&
    (forall n :: n in w.parent ==> ParentOk(w, n, w.parent[n]))
  }

  /** Tokens are never forgotten, moved or brought back. */
  ghost predicate OnlyEnds(w: World, v: World) {
    forall h :: h in w.tokens ==>
      h in v.tokens && v.tokens[h].family == w.tokens[h].family && v.tokens[h].user == w.tokens[h].user
      && (w.tokens[h].revoked ==> v.tokens[h].revoked)
  }

  lemma StepOnlyEnds(w: World, s: Step)
    ensures OnlyEnds(w, Next(w, s))
  {
  }

  lemma InvStep(w: World, s: Step)
    requires Inv(w)
    ensures Inv(Next(w, s))
  {
    StepOnlyEnds(w, s);
  }

  lemma {:induction false} InvAlways(w: World, steps: seq<Step>, k: nat)
    requires Inv(w) && k <= |steps|
    ensures Inv(After(w, steps, k))
    decreases k
  {
    if k == 0 {
      assert After(w, steps, 0) == w;
    } else {
      InvAlways(w, steps, k - 1);
      AfterNext(w, steps, k - 1);
      InvStep(After(w, steps, k - 1), steps[k - 1]);
    }
  }

  // ---------------------------------------------------------------- a family that has died

  /** A refresh of the family has passed its reading and has not finished. */
  predicate UnderWay(w: World, c: int, f: FamilyId) {
    c in w.calls && (w.calls[c].Found? || w.calls[c].Spent?) && w.calls[c].hash in w.tokens && w.tokens[w.calls[c].hash].family == f
  }

  predicate GrantsIn(w: World, s: Step, f: FamilyId) {
    CanGrant(w, s) && UnderWay(w, s.c, f)
  }

  /** A dead family comes to life exactly by a refresh inserting its new token. */
  lemma RevivedByGrant(w: World, s: Step, f: FamilyId)
    requires Inv(w) && Dead(w.tokens, f)
    ensures Dead(Next(w, s).tokens, f) <==> !GrantsIn(w, s, f)
  {
    var h :| h in w.tokens && w.tokens[h].family == f;
    StepOnlyEnds(w, s);
    assert h in Next(w, s).tokens;
    if GrantsIn(w, s, f) {
      assert Live(Next(w, s).tokens, s.hash);
    }
  }

  /** While a family is dead no refresh of it gets past its reading. */
  lemma NoneBegins(w: World, s: Step, c: int, f: FamilyId)
    requires Inv(w) && Dead(w.tokens, f) && UnderWay(Next(w, s), c, f)
    ensures UnderWay(w, c, f)
  {
    StepOnlyEnds(w, s);
    if s.Read? && c == s.c && s.hash in w.tokens && !w.tokens[s.hash].revoked {
      assert Live(w.tokens, s.hash);
    }
  }

  ghost predicate DeadFrom(w: World, steps: seq<Step>, j: nat, k: nat, f: FamilyId) {
    k <= |steps| && forall m: nat :: j <= m <= k ==> Dead(After(w, steps, m).tokens, f)
  }

  lemma {:induction false} BeganBefore(w: World, steps: seq<Step>, j: nat, k: nat, c: int, f: FamilyId)
    requires Inv(w) && j <= k && DeadFrom(w, steps, j, k, f) && UnderWay(After(w, steps, k), c, f)
    ensures UnderWay(After(w, steps, j), c, f)
    decreases k
  {
    if j < k {
      InvAlways(w, steps, k - 1);
      AfterNext(w, steps, k - 1);
      NoneBegins(After(w, steps, k - 1), steps[k - 1], c, f);
      BeganBefore(w, steps, j, k - 1, c, f);
    }
  }

  /** Step i inserts a token of the family for a refresh that had read before point j. */
  ghost predicate LateGrant(w: World, steps: seq<Step>, j: nat, i: nat, f: FamilyId) {
    j <= i < |steps| && GrantsIn(After(w, steps, i), steps[i], f) && UnderWay(After(w, steps, j), steps[i].c, f)
  }

  lemma DeadNext(w: World, steps: seq<Step>, j: nat, k: nat, f: FamilyId)
    requires Inv(w) && j <= k < |steps| && DeadFrom(w, steps, j, k, f)
    ensures DeadFrom(w, steps, j, k + 1, f) <==> !LateGrant(w, steps, j, k, f)
  {
    InvAlways(w, steps, k);
    AfterNext(w, steps, k);
    assert Dead(After(w, steps, k).tokens, f);
    RevivedByGrant(After(w, steps, k), steps[k], f);
    if GrantsIn(After(w, steps, k), steps[k], f) {
      BeganBefore(w, steps, j, k, steps[k].c, f);
    }
  }

  /**
   * A family that has died, by reuse, logout or password reset, stays dead if and only if no refresh that had read its
   * token before that inserts a new one after.
   */
  lemma StaysDeadIff(w: World, steps: seq<Step>, j: nat, k: nat, f: FamilyId)
    requires Inv(w) && j <= k <= |steps| && Dead(After(w, steps, j).tokens, f)
    ensures DeadFrom(w, steps, j, k, f) <==> forall i: nat :: j <= i < k ==> !LateGrant(w, steps, j, i, f)
  {
    var good := (m: nat) => DeadFrom(w, steps, j, m, f);
    var breaks := (m: nat) => LateGrant(w, steps, j, m, f);
    assert good(j);
    forall m: nat | j <= m < k && good(m) ensures good(m + 1) <==> !breaks(m) {
      DeadNext(w, steps, j, m, f);
    }
    Induction.ThroughoutIff(good, breaks, j, k);
    DeadThroughout(w, steps, j, k, f);
    assert forall m: nat :: j <= m <= k ==> (good(m) <==> DeadFrom(w, steps, j, m, f));
    assert forall i: nat :: j <= i < k ==> (breaks(i) <==> LateGrant(w, steps, j, i, f));
  }

  lemma DeadThroughout(w: World, steps: seq<Step>, j: nat, k: nat, f: FamilyId)
    requires j <= k <= |steps|
    ensures DeadFrom(w, steps, j, k, f) <==> (forall m: nat :: j <= m <= k ==> DeadFrom(w, steps, j, m, f))
  {
    assert DeadFrom(w, steps, j, k, f) ==> forall m: nat :: j <= m <= k ==> DeadFrom(w, steps, j, m, f);
  }

  // ---------------------------------------------------------------- a token exchanged twice

  /** A refresh of this very token is past its reading. */
  predicate Holds(w: World, c: int, h: Hash) {
    c in w.calls && (w.calls[c] == Found(h) || w.calls[c] == Spent(h))
  }

  /** The step gives a new token in exchange for h. */
  predicate Exchanges(w: World, s: Step, h: Hash) {
    CanGrant(w, s) && w.calls[s.c].hash == h
  }

  ghost predicate Unheld(w: World, h: Hash) {
    h in w.tokens && w.tokens[h].revoked && forall c :: !Holds(w, c, h)
  }

  lemma UnheldStep(w: World, s: Step, h: Hash)
    requires Inv(w) && Unheld(w, h)
    ensures Unheld(Next(w, s), h) && !Exchanges(w, s, h)
  {
    StepOnlyEnds(w, s);
    forall c ensures !Holds(Next(w, s), c, h) {
      assert !Holds(w, c, h);
    }
    assert s.Grant? ==> !Holds(w, s.c, h);
  }

  lemma {:induction false} StaysUnheld(w: World, steps: seq<Step>, k: nat, h: Hash)
    requires Inv(w) && Unheld(w, h) && k <= |steps|
    ensures Unheld(After(w, steps, k), h)
    decreases k
  {
    if k == 0 {
      assert After(w, steps, 0) == w;
    } else {
      StaysUnheld(w, steps, k - 1, h);
      AfterNext(w, steps, k - 1);
      InvAlways(w, steps, k - 1);
      UnheldStep(After(w, steps, k - 1), steps[k - 1], h);
    }
  }

  /** Some run from here exchanges the token. */
  ghost predicate ExchangedLater(w: World, h: Hash) {
    exists steps, s :: ExchangesAfter(w, steps, s, h)
  }

  ghost predicate ExchangesAfter(w: World, steps: seq<Step>, s: Step, h: Hash) {
    Exchanges(Run(w, steps), s, h)
  }

  /** There is always a hash that has not been used. */
  lemma {:induction false} SomeFresh(hashes: set<Hash>) returns (unused: Hash)
    ensures forall h :: h in hashes ==> |h| < |unused|
    decreases |hashes|
  {
    if hashes == {} {
      unused := "";
    } else {
      var h :| h in hashes;
      unused := SomeFresh(hashes - {h});
      if |unused| <= |h| {
        unused := h + "x";
      }
    }
  }

  lemma HolderExchanges(w: World, c: int, h: Hash, unused: Hash)
    requires Inv(w) && Holds(w, c, h) && unused !in w.tokens
    ensures ExchangedLater(w, h)
  {
    var s := Grant(c, unused, 0);
    if w.calls[c].Spent? {
      assert Run(w, []) == w;
      assert ExchangesAfter(w, [], s, h);
    } else {
      assert Run(w, [Spend(c)]) == Next(w, Spend(c)) by { assert [Spend(c)][..0] == []; }
      assert ExchangesAfter(w, [Spend(c)], s, h);
    }
  }

  lemma ExchangedByHolder(w: World, steps: seq<Step>, s: Step, h: Hash)
    requires Inv(w) && Unheld(w, h)
    ensures !ExchangesAfter(w, steps, s, h)
  {
    assert steps[..|steps|] == steps;
    StaysUnheld(w, steps, |steps|, h);
    InvAlways(w, steps, |steps|);
    UnheldStep(After(w, steps, |steps|), s, h);
  }

  /** When a token is being exchanged it can be exchanged a second time if and only if another refresh of it is then under way. */
  lemma ExchangedAgainIff(w: World, s: Step, h: Hash)
    requires Inv(w) && Exchanges(w, s, h)
    ensures ExchangedLater(Next(w, s), h) <==> exists d :: d != s.c && Holds(w, d, h)
  {
    var v := Next(w, s);
    InvStep(w, s);
    assert forall d :: Holds(v, d, h) <==> d != s.c && Holds(w, d, h);
    if d :| Holds(v, d, h) {
      var unused := SomeFresh(v.tokens.Keys);
      HolderExchanges(v, d, h, unused);
    } else {
      assert CallOk(w, w.calls[s.c]);
      if steps, t :| ExchangesAfter(v, steps, t, h) {
        ExchangedByHolder(v, steps, t, h);
      }
    }
  }

  // ---------------------------------------------------------------- two live tokens in a family

  predicate ChildOf(w: World, n: Hash, h: Hash) {
    n in w.parent && w.parent[n] == h
  }

  ghost predicate HasChild(w: World, h: Hash) {
    exists n :: ChildOf(w, n, h)
  }

  /** The token has been exchanged for two. */
  ghost predicate Forked(w: World, h: Hash) {
    exists m, n :: m != n && ChildOf(w, m, h) && ChildOf(w, n, h)
  }

  /** All tokens of a family but at most one have been exchanged. */
  ghost predicate Chain(w: World, f: FamilyId) {
    forall a, b :: a != b && a in w.tokens && b in w.tokens && w.tokens[a].family == f && w.tokens[b].family == f ==>
      HasChild(w, a) || HasChild(w, b)
  }

  ghost predicate NoFork(w: World, f: FamilyId) {
    forall h :: h in w.tokens && w.tokens[h].family == f ==> !Forked(w, h)
  }

  lemma ChildrenStay(w: World, s: Step, n: Hash, h: Hash)
    requires Inv(w) && ChildOf(w, n, h)
    ensures ChildOf(Next(w, s), n, h)
  {
  }

  lemma HasChildStays(w: World, s: Step, h: Hash)
    requires Inv(w) && HasChild(w, h)
    ensures HasChild(Next(w, s), h)
  {
    var n :| ChildOf(w, n, h);
    ChildrenStay(w, s, n, h);
  }

  lemma NoForkBefore(w: World, s: Step, f: FamilyId)
    requires Inv(w) && NoFork(Next(w, s), f)
    ensures NoFork(w, f)
  {
    StepOnlyEnds(w, s);
    forall h | h in w.tokens && w.tokens[h].family == f ensures !Forked(w, h) {
      if m, n :| m != n && ChildOf(w, m, h) && ChildOf(w, n, h) {
        ChildrenStay(w, s, m, h);
        ChildrenStay(w, s, n, h);
      }
    }
  }

  lemma ChainGrant(w: World, s: Step, f: FamilyId)
    requires Inv(w) && Chain(w, f) && NoFork(Next(w, s), f) && CanGrant(w, s)
    ensures Chain(Next(w, s), f)
  {
    var v := Next(w, s);
    var h := w.calls[s.c].hash;
    assert ChildOf(v, s.hash, h);
    forall a, b | a != b && a in v.tokens && b in v.tokens && v.tokens[a].family == f && v.tokens[b].family == f
      ensures HasChild(v, a) || HasChild(v, b)
    {
      if HasChild(w, h) && v.tokens[h].family == f {
        var n :| ChildOf(w, n, h);
        ChildrenStay(w, s, n, h);
        assert Forked(v, h);
      }
      var a' := if a == s.hash then h else a;
      var b' := if b == s.hash then h else b;
      if a' != b' {
        if HasChild(w, a') { HasChildStays(w, s, a'); } else { HasChildStays(w, s, b'); }
      }
    }
  }

  lemma ChainStep(w: World, s: Step, f: FamilyId)
    requires Inv(w) && Chain(w, f) && NoFork(Next(w, s), f)
    ensures Chain(Next(w, s), f)
  {
    if CanGrant(w, s) {
      ChainGrant(w, s, f);
    } else {
      ChainOther(w, s, f);
    }
  }

  /** A new family has one token. */
  lemma BeginsAlone(w: World, s: Step, a: Hash, b: Hash)
    requires !CanGrant(w, s) && a != b && a in Next(w, s).tokens && b in Next(w, s).tokens
    requires Next(w, s).tokens[a].family == Next(w, s).tokens[b].family
    ensures a in w.tokens && b in w.tokens
  {
    assert forall h :: h in w.tokens ==> Known(w.tokens, w.tokens[h].family);
  }

  lemma ChainOther(w: World, s: Step, f: FamilyId)
    requires Inv(w) && Chain(w, f) && !CanGrant(w, s)
    ensures Chain(Next(w, s), f)
  {
    var v := Next(w, s);
    forall a, b | a != b && a in v.tokens && b in v.tokens && v.tokens[a].family == f && v.tokens[b].family == f
      ensures HasChild(v, a) || HasChild(v, b)
    {
      BeginsAlone(w, s, a, b);
      if HasChild(w, a) { HasChildStays(w, s, a); } else { HasChildStays(w, s, b); }
    }
  }

  const EMPTY: World := World(map[], map[], map[], {})

  lemma {:induction false} ChainAlways(steps: seq<Step>, k: nat, f: FamilyId)
    requires k <= |steps| && NoFork(After(EMPTY, steps, k), f)
    ensures Chain(After(EMPTY, steps, k), f)
    decreases k
  {
    if k == 0 {
      assert After(EMPTY, steps, 0) == EMPTY;
    } else {
      AfterNext(EMPTY, steps, k - 1);
      InvAlways(EMPTY, steps, k - 1);
      NoForkBefore(After(EMPTY, steps, k - 1), steps[k - 1], f);
      ChainAlways(steps, k - 1, f);
      ChainStep(After(EMPTY, steps, k - 1), steps[k - 1], f);
    }
  }

  /** In any run a family has two live tokens only if one of its tokens has been exchanged twice. */
  lemma TwoLiveMeansTwice(steps: seq<Step>, a: Hash, b: Hash)
    requires var w := Run(EMPTY, steps); a != b && Live(w.tokens, a) && Live(w.tokens, b) && w.tokens[a].family == w.tokens[b].family
    ensures var w := Run(EMPTY, steps); exists h :: h in w.tokens && w.tokens[h].family == w.tokens[a].family && Forked(w, h)
  {
    assert steps[..|steps|] == steps;
    var w := After(EMPTY, steps, |steps|);
    var f := w.tokens[a].family;
    InvAlways(EMPTY, steps, |steps|);
    if NoFork(w, f) {
      ChainAlways(steps, |steps|, f);
      LiveHasNoChild(w, a);
      LiveHasNoChild(w, b);
    }
  }

  lemma LiveHasNoChild(w: World, h: Hash)
    requires Inv(w) && Live(w.tokens, h)
    ensures !HasChild(w, h)
  {
    forall n ensures !ChildOf(w, n, h) {
      assert n in w.parent ==> ParentOk(w, n, w.parent[n]);
    }
  }

  // ---------------------------------------------------------------- a refresh left alone, and one that is overtaken

  /** What the statements of one refresh do when nothing comes between. */
  ghost function Alone(w: World, c: int, h: Hash, now: int, hash: Hash, expiresAt: int): World {
    Next(Next(Next(Next(w, Read(c, h, now)), Spend(c)), Grant(c, hash, expiresAt)), EndFamily(c))
  }

  /** Left alone a refresh does what AuthService has it do in one step. */
  lemma AloneIsRefresh(w: World, c: int, h: Hash, now: int, hash: Hash, expiresAt: int)
    requires Inv(w) && c !in w.started && hash !in w.tokens
    ensures Alone(w, c, h, now, hash, expiresAt).tokens == NextTokens(w.tokens, TokenStep.Refresh(h, hash, now, expiresAt, true, true))
    ensures Alone(w, c, h, now, hash, expiresAt).calls == w.calls
  {
    var read := Next(w, Read(c, h, now));
    if h in w.tokens && !w.tokens[h].revoked && now <= w.tokens[h].expiresAt {
      var spent := Next(read, Spend(c));
      assert spent.calls[c] == Spent(h) && spent.calls - {c} == w.calls;
    } else if h in w.tokens && w.tokens[h].revoked {
      assert read.calls[c] == Reusing(w.tokens[h].family) && read.calls - {c} == w.calls;
    }
  }

  /** A refresh that read before a password reset gives the ended family a live token. */
  lemma LateGrantHappens(user: UserId, f: FamilyId, h: Hash, unused: Hash)
    requires unused != h
    ensures var began := Next(Next(EMPTY, Begin(user, f, h, 1)), Read(0, h, 0));
            var ended := Next(began, EndUser(user));
            Dead(ended.tokens, f) && !Dead(Next(Next(ended, Spend(0)), Grant(0, unused, 1)).tokens, f)
  {
    var began := Next(Next(EMPTY, Begin(user, f, h, 1)), Read(0, h, 0));
    assert began.tokens == map[h := Token(user, f, 1, false)] && began.calls == map[0 := Found(h)];
    var ended := Next(began, EndUser(user));
    assert ended.tokens == map[h := Token(user, f, 1, true)];
    assert h in ended.tokens;
    var spent := Next(ended, Spend(0));
    assert spent.tokens == ended.tokens && spent.calls[0] == Spent(h);
    assert Live(Next(spent, Grant(0, unused, 1)).tokens, unused);
  }
}
