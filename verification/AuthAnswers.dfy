/** What each call of the auth service answers, and to whom. */
module AuthAnswers {
  import opened Text
  import opened CacheKeys
  import opened Cache
  import opened AuthSpec
  import opened AuthRuns
  import opened AuthTheorems
  import opened AuthSliding

  // ----- logging in -----

  /** The email, in lower case and trimmed, is the user's, and the password fits. */
  predicate Entitled(email: string, password: string, users: Users, u: string) {
    && TrimSpace(users.lower(email)) != "" && password != ""
    && users.byEmail(TrimSpace(users.lower(email))) == User(u)
    && users.fits(u, password)
  }

  /** All four entries of a pair are there and name the user. */
  predicate Names(w: World, u: string, p: TokenPair) {
    && Access(p.access) in w.kv && w.kv[Access(p.access)].value == u
    && CacheKeys.Refresh(p.refresh) in w.kv && w.kv[CacheKeys.Refresh(p.refresh)].value == u
    && Session(u) in w.kv && w.kv[Session(u)].value == p.refresh
    && AccessSession(u) in w.kv && w.kv[AccessSession(u)].value == p.access
  }

  /** A login is answered with a pair only if the email is that of a user whose password
      fits; the pair is then the generated one, and is that user's. Without such a user the
      store is left as it was. If no cache command fails, nothing else keeps a login back
      than the random source and the status update. */
  lemma LoginAnswers(w: World, e: Env, email: string, password: string, users: Users, gen: Gen, statusOk: bool)
    ensures var (w', r) := Login(w, e.sc, e.cfg, Credentials(email, password, users), gen, statusOk);
            && (r.Ok? ==>
                  statusOk && r == gen && exists u :: Entitled(email, password, users, u) && Names(w', u, r.value))
            && ((forall u :: !Entitled(email, password, users, u)) ==> r.Err? && w' == w)
            && (NoFaults(e) && gen.Ok? && statusOk && (exists u :: Entitled(email, password, users, u)) ==> r == gen)
  {
    var normalized := TrimSpace(users.lower(email));
    var found := users.byEmail(normalized);
    if found.User? && Entitled(email, password, users, found.id) {
      var u := found.id;
      assert Credentials(email, password, users) == Ok(u);
      IssueAnswers(w, e, u, gen);
      if NoFaults(e) && gen.Ok? {
        IssueWorks(w, e, u, gen.value);
      }
    } else {
      assert forall u :: !Entitled(email, password, users, u);
    }
  }

  lemma IssueAnswers(w: World, e: Env, u: string, gen: Gen)
    ensures var (w', r) := AuthSpec.IssueTokens(w, e.sc, e.cfg, u, gen);
            r.Ok? ==> r == gen && Names(w', u, r.value)
  {
    var (w1, cleared) := Invalidate(w, e.sc, u);
    if cleared && gen.Ok? && WriteTokens(w1, e.sc, e.cfg, u, gen.value).1 {
      var issued := IssueStartsTheClock(w1, e, u, gen.value);
    }
  }

  /** Which error a refused login gets. */
  lemma LoginRefusals(w: World, e: Env, email: string, password: string, users: Users, gen: Gen, statusOk: bool)
    ensures var normalized := TrimSpace(users.lower(email));
            var r := Login(w, e.sc, e.cfg, Credentials(email, password, users), gen, statusOk).1;
            && (normalized == "" ==> r == Err(MissingEmail))
            && (normalized != "" && password == "" ==> r == Err(MissingPassword))
            && (normalized != "" && password != "" ==>
                  match users.byEmail(normalized)
                  case NoUser => r == Err(InvalidCredentials)
                  case EmailLookupFailed => r == Err(Internal)
                  case User(id) => !users.fits(id, password) ==> r == Err(InvalidCredentials))
  {
  }

  // ----- exchanging a refresh token -----

  /** The token is u's and is the one of u's session, at the moments of the two lookups,
      and u still exists. */
  predicate Exchanges(w: World, e: Env, token: string, lookup: Lookup, u: string) {
    && TrimSpace(token) != "" && lookup.Found?
    && LiveAs(AfterGet(w, e.sc), CacheKeys.Refresh(TrimSpace(token)), u)
    && LiveAs(AfterGet(AfterGet(w, e.sc), e.sc), Session(u), TrimSpace(token))
  }

  lemma CheckAnswers(w: World, e: Env, token: string, lookup: Lookup)
    ensures var (w', check) := RefreshCheck(w, e.sc, TrimSpace(token), lookup);
            && w'.kv == w.kv
            && (forall u :: check == Ok(u) ==> Exchanges(w, e, token, lookup, u))
            && (NoFaults(e) ==> forall u :: Exchanges(w, e, token, lookup, u) ==> check == Ok(u))
  {
  }

  /** A refresh token is exchanged only for a new pair of the user it and the session name;
      otherwise no entry changes. If no cache command fails, nothing else keeps the
      exchange back than the random source and the status update. */
  lemma RefreshAnswers(w: World, e: Env, token: string, lookup: Lookup, gen: Gen, statusOk: bool)
    ensures var (w', r) := RefreshTokens(w, e.sc, e.cfg, token, lookup, gen, statusOk);
            && (r.Ok? ==> statusOk && r == gen && exists u :: Exchanges(w, e, token, lookup, u) && Names(w', u, r.value))
            && ((forall u :: !Exchanges(w, e, token, lookup, u)) ==>
                  r.Err? && w'.kv == w.kv
                  && (NoFaults(e) && !lookup.LookupFailed? ==> r == Err(InvalidRefreshToken)))
            && (NoFaults(e) && gen.Ok? && statusOk && (exists u :: Exchanges(w, e, token, lookup, u)) ==> r == gen)
  {
    var (w1, check) := RefreshCheck(w, e.sc, TrimSpace(token), lookup);
    CheckAnswers(w, e, token, lookup);
    if check.Ok? {
      assert Exchanges(w, e, token, lookup, check.value);
      IssueAnswers(w1, e, check.value, gen);
      if NoFaults(e) && gen.Ok? {
        IssueWorks(w1, e, check.value, gen.value);
      }
    }
  }

  // ----- validating and logging out -----

  /** A validation is answered with the user that the token's live entry names. */
  lemma ValidateAnswers(w: World, e: Env, token: string)
    ensures var (w', r) := Validate(w, e.sc, e.cfg, token);
            && (forall u :: r == Ok(u) ==>
                  TrimSpace(token) != "" && LiveAs(AfterGet(w, e.sc), Access(TrimSpace(token)), u)
                  && LiveAs(w', AccessSession(u), TrimSpace(token)))
            && (NoFaults(e) && TrimSpace(token) != "" ==>
                  forall u :: LiveAs(AfterGet(w, e.sc), Access(TrimSpace(token)), u) ==> r == Ok(u))
            && (NoFaults(e) && r.Err? ==> r == Err(InvalidAccessToken) && w'.kv == w.kv)
  {
  }

  /** A Logout succeeds only for a user and with its status updated; it then leaves the user
      no session entry, if the deletions work. */
  lemma LogoutAnswers(w: World, e: Env, user: string, statusOk: bool)
    ensures var (w', r) := Logout(w, e.sc, user, statusOk);
            && (TrimSpace(user) == "" ==> r == Err(MissingUserID) && w' == w)
            && (r.Ok? ==> TrimSpace(user) != "" && statusOk)
            && (NoFaults(e) && TrimSpace(user) != "" && statusOk ==> r.Ok?)
            && (NoFaults(e) && TrimSpace(user) != "" ==>
                  !Live(w', Session(TrimSpace(user))) && !Live(w', AccessSession(TrimSpace(user))))
  {
  }

  /** The entries that an invalidation of u is about. */
  predicate IsOf(w: World, u: string, k: Key) {
    match k
    case Session(v) => v == u
    case AccessSession(v) => v == u
    case Refresh(t) => Session(u) in w.kv && w.kv[Session(u)].value == t
    case Access(a) => AccessSession(u) in w.kv && w.kv[AccessSession(u)].value == a
  }

  /** An invalidation takes away nothing but the user's session and access-session entries
      and the two token entries that these name, and writes nothing. */
  lemma InvalidateTakesOnly(w: World, e: Env, u: string, k: Key)
    ensures var w' := Invalidate(w, e.sc, u).0;
            && (k in w'.kv ==> k in w.kv && w'.kv[k] == w.kv[k])
            && (k in w.kv && k !in w'.kv ==> IsOf(w, u, k))
  {
  }

  /** If deletes work it takes all four, as far as the two that name the tokens live. */
  lemma InvalidateTakesAll(w: World, e: Env, u: string)
    requires DeletesWork(e) && Invalidate(w, e.sc, u).1
    ensures var w' := Invalidate(w, e.sc, u).0;
            && (Session(u) in w.kv && w'.now < w.kv[Session(u)].expires ==>
                  Session(u) !in w'.kv && CacheKeys.Refresh(w.kv[Session(u)].value) !in w'.kv)
            && (AccessSession(u) in w.kv && w'.now < w.kv[AccessSession(u)].expires ==>
                  AccessSession(u) !in w'.kv && Access(w.kv[AccessSession(u)].value) !in w'.kv)
  {
    var w2 := SessionRemoved(w, e, u);
    InvalidateEnds(w, e, u);
    SessionRemovedKeeps(w, e, u, AccessSession(u));
    SessionGoes(w, e, u);
    var named, w3 := NamedToken(w, e, u), AfterGet(w2, e.sc);
    if named.Hit? {
      DeleteWorks(w3, e, AccessSession(u));
      DeleteWorks(AfterDelete(w3, e.sc, AccessSession(u)), e, Access(named.value));
    }
  }

  lemma SessionGoes(w: World, e: Env, u: string)
    requires DeletesWork(e) && !GetReply(w, e.sc, Session(u)).Failed?
    ensures var w2 := SessionRemoved(w, e, u);
            && w.now <= w2.now
            && (Session(u) in w.kv && w2.now < w.kv[Session(u)].expires ==>
                  Session(u) !in w2.kv && CacheKeys.Refresh(w.kv[Session(u)].value) !in w2.kv)
  {
    var session, w1 := GetReply(w, e.sc, Session(u)), AfterGet(w, e.sc);
    if session.Hit? {
      DeleteWorks(w1, e, Session(u));
      DeleteWorks(AfterDelete(w1, e.sc, Session(u)), e, CacheKeys.Refresh(session.value));
    }
  }

  /** If the third or the fourth write of an issue fails and deletes work, nothing of the
      new pair is left, nor the session it was for. */
  lemma FailedIssueLeavesNothing(w: World, e: Env, u: string, p: TokenPair)
    requires DeletesWork(e) && !WriteAccess(w, e.sc, e.cfg, u, p).1
    ensures var w' := WriteAccess(w, e.sc, e.cfg, u, p).0;
            && Session(u) !in w'.kv && CacheKeys.Refresh(p.refresh) !in w'.kv && Access(p.access) !in w'.kv
            && (AccessSession(u) in w'.kv ==>
                  AccessSession(u) in w.kv && w'.kv[AccessSession(u)] == w.kv[AccessSession(u)])
  {
    var w1 := AfterSet(w, e.sc, Access(p.access), u, e.cfg.accessTTL);
    var w2 := AfterSet(w1, e.sc, AccessSession(u), p.access, e.cfg.accessTTL);
    RollBackWorks(w1, e, u, p);
    RollBackWorks(w2, e, u, p);
    DeleteWorks(RollBack(w2, e.sc, u, p), e, AccessSession(u));
  }

  // ----- in every run the right user is answered -----

  /** Whatever cache commands fail, an accepted access token is answered with the user it
      was generated for. */
  lemma AcceptedIsOwner(e: Env, ops: seq<Op>, token: string, u: string)
    requires FreshRun(EMPTY, e, ops)
    requires Step(Run(EMPTY, e, ops), e, ValidateOp(token)).1 == Accepted(Ok(u))
    ensures var o := Run(EMPTY, e, ops).owners; TrimSpace(token) in o.access && o.access[TrimSpace(token)] == u
  {
    RunNoRevival(EMPTY, e, ops);
    var w := Run(EMPTY, e, ops).world;
    ValidateAnswers(w, e, token);
    assert Owned(Access(TrimSpace(token)), w.kv[Access(TrimSpace(token))].value, Run(EMPTY, e, ops).owners);
  }

  /** And a refresh token is exchanged for a pair that is generated for its own user. */
  lemma ExchangedForOwner(e: Env, ops: seq<Op>, op: Op, p: TokenPair)
    requires FreshRun(EMPTY, e, ops) && op.RefreshOp?
    requires Step(Run(EMPTY, e, ops), e, op).1 == Issued(Ok(p))
    ensures var o := Run(EMPTY, e, ops).owners;
            && TrimSpace(op.token) in o.refresh
            && Names(Step(Run(EMPTY, e, ops), e, op).0.world, o.refresh[TrimSpace(op.token)], p)
  {
    RunNoRevival(EMPTY, e, ops);
    var s := Run(EMPTY, e, ops);
    var t := TrimSpace(op.token);
    RefreshAnswers(s.world, e, op.token, op.lookup, op.gen, op.statusOk);
    var u :| Exchanges(s.world, e, op.token, op.lookup, u) && Names(Step(s, e, op).0.world, u, p);
    assert Owned(CacheKeys.Refresh(t), s.world.kv[CacheKeys.Refresh(t)].value, s.owners);
  }
}
