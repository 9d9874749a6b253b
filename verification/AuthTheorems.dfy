/** The promises of the auth service, over whole runs. */
module AuthTheorems {
  import opened Text
  import opened CacheKeys
  import opened Cache
  import opened AuthSpec
  import opened AuthRuns

  /** The user a call acts for, once its checks have passed. */
  function ActsFor(s: Sys, e: Env, op: Op): Result<string, AuthError> {
    match op
    case LogoutOp(user, _) => Ok(TrimSpace(user))
    case ValidateOp(_) => Err(InvalidAccessToken)
    case _ => Checked(s.world, e, op).1
  }

  predicate Succeeds(answer: Answer) {
    match answer
    case Issued(pair) => pair.Ok?
    case LoggedOut(done) => done.Ok?
    case Accepted(who) => who.Ok?
  }

  /** A Login, Refresh or Logout that acts for u and returns without error. */
  predicate Completes(s: Sys, e: Env, op: Op, u: string) {
    !op.ValidateOp? && ActsFor(s, e, op) == Ok(u) && Succeeds(Step(s, e, op).1)
  }

  // ----- refresh tokens are single-use -----

  lemma WriteTokensReplacesSession(w: World, e: Env, u: string, p: TokenPair)
    requires WriteTokens(w, e.sc, e.cfg, u, p).1
    ensures var w' := WriteTokens(w, e.sc, e.cfg, u, p).0;
            Session(u) in w'.kv && w'.kv[Session(u)].value == p.refresh
  {
  }

  lemma IssueRetires(s: Sys, e: Env, op: Op, t: string)
    requires AllOwned(s.world, s.owners) && Fresh(s, op)
    requires op.LoginOp? || op.RefreshOp?
    requires Succeeds(Step(s, e, op).1)
    requires t in s.owners.refresh && ActsFor(s, e, op) == Ok(s.owners.refresh[t])
    ensures var s' := Step(s, e, op).0; !Exchangeable(s'.world, s'.owners, t)
  {
    var (w, check) := Checked(s.world, e, op);
    var u := check.value;
    WriteTokensReplacesSession(Invalidate(w, e.sc, u).0, e, u, op.gen.value);
  }

  /** Once Refresh(t), or a Login of t's user, has returned a pair, no later
      Refresh(t) succeeds. Any cache command may fail, before and after. */
  lemma RefreshIsSingleUse(e: Env, before: seq<Op>, op: Op, after: seq<Op>, t: string, retry: Op)
    requires FreshRun(EMPTY, e, before)
    requires var s := Run(EMPTY, e, before);
             && Fresh(s, op)
             && (op.LoginOp? || op.RefreshOp?)
             && Succeeds(Step(s, e, op).1)
             && (|| (op.RefreshOp? && TrimSpace(op.token) == t)
                 || (op.LoginOp? && t in s.owners.refresh && op.check == Ok(s.owners.refresh[t])))
             && FreshRun(Step(s, e, op).0, e, after)
    requires retry.RefreshOp? && TrimSpace(retry.token) == t
    ensures !Succeeds(Step(Run(Step(Run(EMPTY, e, before), e, op).0, e, after), e, retry).1)
  {
    var s := Run(EMPTY, e, before);
    RunNoRevival(EMPTY, e, before);
    UsedUp(s, e, op, t);
    StepOwned(s, e, op);
    SpentForGood(Step(s, e, op).0, e, after, t, retry);
  }

  /** After the first exchange, or a Login of its user, t has an owner and is spent. */
  lemma UsedUp(s: Sys, e: Env, op: Op, t: string)
    requires AllOwned(s.world, s.owners) && Fresh(s, op)
    requires op.LoginOp? || op.RefreshOp?
    requires Succeeds(Step(s, e, op).1)
    requires (op.RefreshOp? && TrimSpace(op.token) == t)
          || (op.LoginOp? && t in s.owners.refresh && op.check == Ok(s.owners.refresh[t]))
    ensures var s' := Step(s, e, op).0; t in s'.owners.refresh && !Exchangeable(s'.world, s'.owners, t)
  {
    IssueRetires(s, e, op, t);
    StepNoRevival(s, e, op);
  }

  lemma SpentForGood(s: Sys, e: Env, after: seq<Op>, t: string, retry: Op)
    requires AllOwned(s.world, s.owners) && FreshRun(s, e, after)
    requires t in s.owners.refresh && !Exchangeable(s.world, s.owners, t)
    requires retry.RefreshOp? && TrimSpace(retry.token) == t
    ensures !Succeeds(Step(Run(s, e, after), e, retry).1)
  {
    RunNoRevival(s, e, after);
    NotExchangeableFails(Run(s, e, after), e, retry, t);
  }

  lemma NotExchangeableFails(s: Sys, e: Env, op: Op, t: string)
    requires AllOwned(s.world, s.owners) && !Exchangeable(s.world, s.owners, t)
    requires op.RefreshOp? && TrimSpace(op.token) == t
    ensures !Succeeds(Step(s, e, op).1)
    ensures Checked(s.world, e, op).1.Err?
  {
  }

  // ----- the per-user access entry outlives the access token -----

  /** A live access token is the one its user's access-session entry names,
      and that entry expires no earlier. */
  ghost predicate Linked(w: World) {
    forall a :: Access(a) in w.kv ==> LinkedAt(w, a)
  }

  predicate LinkedAt(w: World, a: string)
    requires Access(a) in w.kv
  {
    var entry := w.kv[Access(a)];
    var back := AccessSession(entry.value);
    || entry.expires <= w.now
    || (back in w.kv && w.kv[back].value == a && entry.expires <= w.kv[back].expires)
  }

  ghost predicate NoAccess(w: World, u: string) {
    forall a :: Access(a) in w.kv && w.kv[Access(a)].value == u ==> w.kv[Access(a)].expires <= w.now
  }

  ghost predicate Settled(w: World, u: string) {
    Linked(w) && NoAccess(w, u)
  }

  predicate NoSession(w: World, u: string) {
    !Live(w, Session(u))
  }

  /** u has no session, or one that names a token without an entry. */
  predicate NoExchange(w: World, u: string, t: string) {
    NoSession(w, u) || (w.kv[Session(u)].value == t && Refresh(t) !in w.kv)
  }

  ghost predicate DeletesWork(e: Env) {
    forall n: nat :: Acked(World(map[], 0, n), e.sc, DeleteCommand)
  }

  /** The two writes of a validation succeed. */
  predicate RenewalWorks(s: Sys, e: Env, op: Op) {
    op.ValidateOp? ==>
      var w1 := AfterGet(s.world, e.sc);
      Acked(w1, e.sc, SetCommand) && Acked(w1.(turn := w1.turn + 1), e.sc, SetCommand)
  }

  predicate RenewalsWork(s: Sys, e: Env, ops: seq<Op>)
    decreases |ops|
  {
    ops == [] || (RenewalWorks(s, e, ops[0]) && RenewalsWork(Step(s, e, ops[0]).0, e, ops[1..]))
  }

  lemma DeleteWorks(w: World, e: Env, k: Key)
    requires DeletesWork(e)
    ensures AfterDelete(w, e.sc, k).kv == w.kv - {k}
  {
    assert Acked(World(map[], 0, w.turn), e.sc, DeleteCommand);
  }

  lemma InvalidateClears(w: World, e: Env, u: string)
    requires Linked(w) && DeletesWork(e)
    ensures var (w', ok) := Invalidate(w, e.sc, u);
            Linked(w') && (ok ==> Settled(w', u) && NoSession(w', u))
  {
    var session := GetReply(w, e.sc, Session(u));
    var w1 := AfterGet(w, e.sc);
    if session.Failed? {
      return;
    }
    var w2 := w1;
    if session.Hit? {
      DeleteWorks(w1, e, Session(u));
      w2 := AfterDelete(w1, e.sc, Session(u));
      DeleteWorks(w2, e, Refresh(session.value));
      w2 := AfterDelete(w2, e.sc, Refresh(session.value));
    }
    assert Linked(w2) && NoSession(w2, u);
    var access := GetReply(w2, e.sc, AccessSession(u));
    var w3 := AfterGet(w2, e.sc);
    assert Linked(w3) && NoSession(w3, u);
    if access.Hit? {
      DeleteWorks(w3, e, AccessSession(u));
      DeleteWorks(AfterDelete(w3, e.sc, AccessSession(u)), e, Access(access.value));
    }
  }

  lemma SetAsideSettles(w: World, sc: Script, k: Key, value: string, ttl: int, u: string)
    requires Settled(w, u)
    requires k.Session? || k.Refresh?
    ensures Settled(AfterSet(w, sc, k, value, ttl), u)
  {
  }

  /** Taking entries away, of u's access-session and of any other family, breaks no
      link as long as u has no live access token. */
  lemma RemovalSettles(w: World, w': World, gone: set<Key>, u: string)
    requires Settled(w, u)
    requires w.now <= w'.now && w'.kv == w.kv - gone
    requires forall k :: k in gone && k.AccessSession? ==> k.user == u
    ensures Settled(w', u)
  {
  }

  lemma WriteAccessLinks(w: World, e: Env, u: string, p: TokenPair)
    requires Settled(w, u) && DeletesWork(e)
    ensures var (w', ok) := WriteAccess(w, e.sc, e.cfg, u, p);
            if ok then Linked(w') else Settled(w', u) && NoSession(w', u)
  {
    var w1 := AfterSet(w, e.sc, Access(p.access), u, e.cfg.accessTTL);
    var w2 := AfterSet(w1, e.sc, AccessSession(u), p.access, e.cfg.accessTTL);
    ghost var gone := {Session(u), Refresh(p.refresh), Access(p.access)};
    if !Acked(w, e.sc, SetCommand) {
      RollBackWorks(w1, e, u, p);
      var w' := RollBack(w1, e.sc, u, p);
      assert w'.kv == w.kv - gone;
      RemovalSettles(w, w', gone, u);
    } else if !Acked(w1, e.sc, SetCommand) {
      RollBackWorks(w2, e, u, p);
      var w' := RollBack(w2, e.sc, u, p);
      DeleteWorks(w', e, AccessSession(u));
      var w'' := AfterDelete(w', e.sc, AccessSession(u));
      assert w''.kv == w.kv - (gone + {AccessSession(u)});
      RemovalSettles(w, w'', gone + {AccessSession(u)}, u);
    }
  }

  /** Whatever happens to the four writes, the result is linked; if one of them
      fails, the user is left with nothing that can be accepted. */
  lemma WriteTokensLinks(w: World, e: Env, u: string, p: TokenPair)
    requires Settled(w, u) && NoSession(w, u) && DeletesWork(e)
    requires Refresh(p.refresh) !in w.kv
    ensures var (w', ok) := WriteTokens(w, e.sc, e.cfg, u, p);
            if ok then Linked(w') else Settled(w', u) && NoExchange(w', u, p.refresh)
  {
    var w1 := AfterSet(w, e.sc, Session(u), p.refresh, e.cfg.refreshTTL);
    SetAsideSettles(w, e.sc, Session(u), p.refresh, e.cfg.refreshTTL, u);
    if Acked(w, e.sc, SetCommand) {
      var w2 := AfterSet(w1, e.sc, Refresh(p.refresh), u, e.cfg.refreshTTL);
      SetAsideSettles(w1, e.sc, Refresh(p.refresh), u, e.cfg.refreshTTL, u);
      if Acked(w1, e.sc, SetCommand) {
        WriteAccessLinks(w2, e, u, p);
      } else {
        DeleteWorks(w2, e, Session(u));
        RemovalSettles(w2, AfterDelete(w2, e.sc, Session(u)), {Session(u)}, u);
      }
    }
  }

  lemma RollBackWorks(w: World, e: Env, u: string, p: TokenPair)
    requires DeletesWork(e)
    ensures RollBack(w, e.sc, u, p).kv == w.kv - {Session(u), Refresh(p.refresh), Access(p.access)}
    ensures w.now <= RollBack(w, e.sc, u, p).now
  {
    var w1 := AfterDelete(w, e.sc, Session(u));
    var w2 := AfterDelete(w1, e.sc, Refresh(p.refresh));
    DeleteWorks(w, e, Session(u));
    DeleteWorks(w1, e, Refresh(p.refresh));
    DeleteWorks(w2, e, Access(p.access));
  }

  lemma IssueLinks(s: Sys, w: World, e: Env, u: string, gen: Gen)
    requires w.kv == s.world.kv && s.world.now <= w.now
    requires AllOwned(s.world, s.owners) && Linked(s.world) && DeletesWork(e)
    requires gen.Ok? ==> gen.value.refresh !in s.owners.refresh
    ensures Linked(AuthSpec.IssueTokens(w, e.sc, e.cfg, u, gen).0)
  {
    assert Linked(w);
    InvalidateClears(w, e, u);
    InvalidateOwned(w, e.sc, u, s.owners);
    var (w1, ok) := Invalidate(w, e.sc, u);
    if ok && gen.Ok? {
      WriteTokensLinks(w1, e, u, gen.value);
    }
  }

  lemma RenewalLinks(s: Sys, e: Env, op: Op)
    requires AllOwned(s.world, s.owners) && Linked(s.world)
    requires op.ValidateOp? && RenewalWorks(s, e, op)
    ensures Linked(Step(s, e, op).0.world)
  {
    var token := TrimSpace(op.token);
    var w1 := AfterGet(s.world, e.sc);
    var reply := GetReply(s.world, e.sc, Access(token));
    if token != "" && reply.Hit? {
      var u := reply.value;
      var w2 := AfterSet(w1, e.sc, Access(token), u, e.cfg.accessTTL);
      var w3 := AfterSet(w2, e.sc, AccessSession(u), token, e.cfg.accessTTL);
      forall a | Access(a) in w3.kv ensures LinkedAt(w3, a) {
        if a != token {
          assert LinkedAt(s.world, a);
        }
      }
    }
  }

  lemma StepLinks(s: Sys, e: Env, op: Op)
    requires AllOwned(s.world, s.owners) && Fresh(s, op)
    requires Linked(s.world) && DeletesWork(e) && RenewalWorks(s, e, op)
    ensures Linked(Step(s, e, op).0.world)
  {
    match op
    case LoginOp(check, gen, _) =>
      if check.Ok? {
        IssueLinks(s, s.world, e, check.value, gen);
      }
    case RefreshOp(_, _, gen, _) =>
      var (w, check) := Checked(s.world, e, op);
      if check.Ok? {
        IssueLinks(s, w, e, check.value, gen);
      }
    case LogoutOp(user, _) =>
      InvalidateClears(s.world, e, TrimSpace(user));
    case ValidateOp(_) =>
      RenewalLinks(s, e, op);
  }

  /** Gets may fail, and so may the writes of issueTokens; deletes and the
      renewals of validation may not. */
  lemma {:induction false} RunLinks(s: Sys, e: Env, ops: seq<Op>)
    requires AllOwned(s.world, s.owners) && FreshRun(s, e, ops)
    requires Linked(s.world) && DeletesWork(e) && RenewalsWork(s, e, ops)
    ensures var s' := Run(s, e, ops); AllOwned(s'.world, s'.owners) && Linked(s'.world)
    decreases |ops|
  {
    if ops != [] {
      StepOwned(s, e, ops[0]);
      StepLinks(s, e, ops[0]);
      RunLinks(Step(s, e, ops[0]).0, e, ops[1..]);
    }
  }

  /** Each user has at most one access token that would be accepted. */
  lemma OneAccessTokenPerUser(e: Env, ops: seq<Op>, a: string, b: string, u: string)
    requires FreshRun(EMPTY, e, ops) && DeletesWork(e) && RenewalsWork(EMPTY, e, ops)
    requires var w := Run(EMPTY, e, ops).world; LiveAs(w, Access(a), u) && LiveAs(w, Access(b), u)
    ensures a == b
    ensures LiveAs(Run(EMPTY, e, ops).world, AccessSession(u), a)
  {
    RunLinks(EMPTY, e, ops);
    var w := Run(EMPTY, e, ops).world;
    assert LinkedAt(w, a) && LinkedAt(w, b);
  }

  // ----- logging in, refreshing and logging out revoke for good -----

  /** In no continuation of s, under any faults, is a accepted. */
  lemma RevokedStaysRevoked(s: Sys, e: Env, after: seq<Op>, use: Op)
    requires AllOwned(s.world, s.owners) && FreshRun(s, e, after) && use.ValidateOp?
    requires var a := TrimSpace(use.token); a in s.owners.access && !Live(s.world, Access(a))
    ensures !Succeeds(Step(Run(s, e, after), e, use).1)
  {
    RunNoRevival(s, e, after);
  }

  lemma IssueSparesNothing(w: World, e: Env, u: string, gen: Gen, a: string)
    requires NoAccess(w, u) && gen.Ok? && a != gen.value.access
    requires Access(a) in w.kv ==> w.kv[Access(a)].value == u
    ensures !Live(WriteTokens(w, e.sc, e.cfg, u, gen.value).0, Access(a))
  {
    WriteTokensGrows(w, e, u, gen.value, Owners(map[a := u], map[]));
  }

  lemma LogoutRevokes(s: Sys, e: Env, op: Op, u: string, a: string)
    requires AllOwned(s.world, s.owners) && op.LogoutOp?
    requires Linked(s.world) && DeletesWork(e) && Completes(s, e, op, u)
    requires a in s.owners.access && s.owners.access[a] == u
    ensures !Live(Step(s, e, op).0.world, Access(a))
  {
    InvalidateClears(s.world, e, u);
    InvalidateOwned(s.world, e.sc, u, s.owners);
  }

  lemma IssueRevokes(s: Sys, e: Env, op: Op, u: string, a: string)
    requires AllOwned(s.world, s.owners) && Fresh(s, op) && (op.LoginOp? || op.RefreshOp?)
    requires Linked(s.world) && DeletesWork(e) && Completes(s, e, op, u)
    requires a in s.owners.access && s.owners.access[a] == u
    ensures !Live(Step(s, e, op).0.world, Access(a))
  {
    var w := Checked(s.world, e, op).0;
    CheckGrows(s.world, e, op, s.owners);
    assert Linked(w) && AllOwned(w, s.owners);
    InvalidateClears(w, e, u);
    InvalidateOwned(w, e.sc, u, s.owners);
    var w1 := Invalidate(w, e.sc, u).0;
    IssueSparesNothing(w1, e, u, op.gen, a);
  }

  lemma CompletionRevokes(s: Sys, e: Env, op: Op, u: string, a: string)
    requires AllOwned(s.world, s.owners) && Fresh(s, op)
    requires Linked(s.world) && DeletesWork(e)
    requires Completes(s, e, op, u)
    requires a in s.owners.access && s.owners.access[a] == u
    ensures !Live(Step(s, e, op).0.world, Access(a))
  {
    if op.LogoutOp? {
      LogoutRevokes(s, e, op, u, a);
    } else {
      IssueRevokes(s, e, op, u, a);
    }
  }

  /** After a completed Login, Refresh or Logout of u, no access token generated
      for u before that call is ever accepted again. The faults of the
      continuation (e2) are unrestricted. */
  lemma AccessRevocation(e: Env, before: seq<Op>, op: Op, u: string, e2: Env, after: seq<Op>, use: Op)
    requires FreshRun(EMPTY, e, before) && DeletesWork(e) && RenewalsWork(EMPTY, e, before)
    requires var s := Run(EMPTY, e, before);
             && Fresh(s, op) && Completes(s, e, op, u)
             && FreshRun(Step(s, e, op).0, e2, after)
             && use.ValidateOp?
             && TrimSpace(use.token) in s.owners.access
             && s.owners.access[TrimSpace(use.token)] == u
    ensures !Succeeds(Step(Run(Step(Run(EMPTY, e, before), e, op).0, e2, after), e2, use).1)
  {
    var s := Run(EMPTY, e, before);
    RunLinks(EMPTY, e, before);
    CompletionRevokes(s, e, op, u, TrimSpace(use.token));
    StepOwned(s, e, op);
    StepNoRevival(s, e, op);
    RevokedStaysRevoked(Step(s, e, op).0, e2, after, use);
  }

  // ----- what exactly a Logout spares -----

  /** The cache when an invalidation comes to look for u's access-session entry. */
  function SessionRemoved(w: World, e: Env, u: string): World {
    var session := GetReply(w, e.sc, Session(u));
    var w1 := AfterGet(w, e.sc);
    if session.Hit? then AfterDelete(AfterDelete(w1, e.sc, Session(u)), e.sc, Refresh(session.value)) else w1
  }

  /** What that lookup answers. */
  function NamedToken(w: World, e: Env, u: string): Reply {
    GetReply(SessionRemoved(w, e, u), e.sc, AccessSession(u))
  }

  /** The deletion of the named token takes effect. */
  predicate DeletionLands(w: World, e: Env, u: string) {
    e.sc(SessionRemoved(w, e, u).turn + 2, DeleteCommand).fault != Dropped
  }

  lemma InvalidateSparesIff(w: World, e: Env, u: string, a: string)
    requires Invalidate(w, e.sc, u).1
    ensures var w' := Invalidate(w, e.sc, u).0;
            Live(w', Access(a)) <==>
            && Access(a) in w.kv && w'.now < w.kv[Access(a)].expires
            && !(NamedToken(w, e, u) == Hit(a) && DeletionLands(w, e, u))
  {
    var w2 := SessionRemoved(w, e, u);
    assert Access(a) in w2.kv <==> Access(a) in w.kv;
    assert Access(a) in w.kv ==> w2.kv[Access(a)] == w.kv[Access(a)];
    InvalidateEnds(w, e, u);
  }

  lemma InvalidateEnds(w: World, e: Env, u: string)
    requires Invalidate(w, e.sc, u).1
    ensures var w2, named := SessionRemoved(w, e, u), NamedToken(w, e, u);
            var w3 := AfterGet(w2, e.sc);
            Invalidate(w, e.sc, u).0
            == if named.Hit? then AfterDelete(AfterDelete(w3, e.sc, AccessSession(u)), e.sc, Access(named.value)) else w3
  {
  }

  /** After a Logout that succeeded, in any state and under any faults, an access token is
      live exactly if it has not expired and the Logout did not remove it: the
      access-session entry it read did not name it, or the deletion was lost. */
  lemma LogoutSparesIff(s: Sys, e: Env, op: Op, a: string)
    requires op.LogoutOp? && Succeeds(Step(s, e, op).1)
    ensures var u, w' := TrimSpace(op.user), Step(s, e, op).0.world;
            Live(w', Access(a)) <==>
            && Access(a) in s.world.kv && w'.now < s.world.kv[Access(a)].expires
            && !(NamedToken(s.world, e, u) == Hit(a) && DeletionLands(s.world, e, u))
  {
    InvalidateSparesIff(s.world, e, TrimSpace(op.user), a);
  }

  // ----- a failed issue leaves nothing behind -----

  /** The call reached the four writes for u, and one of them failed. */
  predicate IssueFails(s: Sys, e: Env, op: Op, u: string) {
    && (op.LoginOp? || op.RefreshOp?) && op.gen.Ok?
    && var (w, check) := Checked(s.world, e, op);
       && check == Ok(u)
       && var (w1, cleared) := Invalidate(w, e.sc, u);
          cleared && !WriteTokens(w1, e.sc, e.cfg, u, op.gen.value).1
  }

  lemma IssueFailureClears(s: Sys, e: Env, op: Op, u: string)
    requires AllOwned(s.world, s.owners) && Fresh(s, op)
    requires Linked(s.world) && DeletesWork(e)
    requires IssueFails(s, e, op, u)
    ensures var s' := Step(s, e, op).0;
            NoAccess(s'.world, u) && NoExchange(s'.world, u, op.gen.value.refresh)
  {
    var w := Checked(s.world, e, op).0;
    assert Linked(w) && AllOwned(w, s.owners);
    InvalidateClears(w, e, u);
    InvalidateOwned(w, e.sc, u, s.owners);
    WriteTokensLinks(Invalidate(w, e.sc, u).0, e, u, op.gen.value);
  }

  /** If one of the four writes fails, whether or not it took effect, then no
      access or refresh token generated for u so far, the new pair included, is
      ever accepted. */
  lemma FailedIssueRevokesAll(e: Env, before: seq<Op>, op: Op, u: string, e2: Env, after: seq<Op>, use: Op)
    requires FreshRun(EMPTY, e, before) && DeletesWork(e) && RenewalsWork(EMPTY, e, before)
    requires var s := Run(EMPTY, e, before);
             && Fresh(s, op) && IssueFails(s, e, op, u)
             && FreshRun(Step(s, e, op).0, e2, after)
    requires use.ValidateOp? || use.RefreshOp?
    requires var o := Step(Run(EMPTY, e, before), e, op).0.owners;
             var given := if use.ValidateOp? then o.access else o.refresh;
             TrimSpace(use.token) in given && given[TrimSpace(use.token)] == u
    ensures !Succeeds(Step(Run(EMPTY, e, before), e, op).1)
    ensures !Succeeds(Step(Run(Step(Run(EMPTY, e, before), e, op).0, e2, after), e2, use).1)
  {
    var s := Run(EMPTY, e, before);
    RunLinks(EMPTY, e, before);
    IssueFailureClears(s, e, op, u);
    StepOwned(s, e, op);
    var s' := Step(s, e, op).0;
    if use.ValidateOp? {
      RevokedStaysRevoked(s', e2, after, use);
    } else {
      SpentForGood(s', e2, after, TrimSpace(use.token), use);
    }
  }
}
