/** Sliding expiry of access tokens, and what a lost renewal does to Logout. */
module AuthSliding {
  import opened Text
  import opened CacheKeys
  import opened Cache
  import opened AuthSpec
  import opened AuthRuns
  import opened AuthTheorems

  ghost predicate NoFaults(e: Env) {
    forall n: nat, c :: e.sc(n, c).fault == NoFault
  }

  /** One validation of a token: when its lookup ran, when its renewal ran if there was
      one, whether it was accepted, and whether a call had acted for its user before. */
  datatype Use = Use(asked: int, renewed: int, accepted: bool, revoked: bool)

  predicate IsUse(op: Op, a: string) {
    op.ValidateOp? && TrimSpace(op.token) == a
  }

  /** A Login, Refresh or Logout gets past its checks for u, and so invalidates u's session. */
  predicate Acts(s: Sys, e: Env, op: Op, u: string) {
    ActsFor(s, e, op) == Ok(u) && (op.LogoutOp? ==> u != "")
  }

  function UseOf(w: World, e: Env, token: string, revoked: bool): Use {
    var w1 := AfterGet(w, e.sc);
    Use(w1.now, Advance(w1, e.sc, SetCommand).now, Validate(w, e.sc, e.cfg, token).1.Ok?, revoked)
  }

  /** The validations of u's token a in a run of any calls. */
  function Uses(s: Sys, e: Env, ops: seq<Op>, a: string, u: string, revoked: bool): seq<Use>
    decreases |ops|
  {
    if ops == [] then []
    else
      var rest := Uses(Step(s, e, ops[0]).0, e, ops[1..], a, u, revoked || Acts(s, e, ops[0], u));
      if IsUse(ops[0], a) then [UseOf(s.world, e, ops[0].token, revoked)] + rest else rest
  }

  /** Time from the issue (j = 0) or the previous use's renewal to use j. */
  function Gap(uses: seq<Use>, issued: int, j: nat): int
    requires j < |uses|
  {
    uses[j].asked - (if j == 0 then issued else uses[j - 1].renewed)
  }

  /** Each use up to the i-th comes soon enough after the one before. */
  predicate GapsShort(uses: seq<Use>, issued: int, i: nat, ttl: int)
    requires i < |uses|
  {
    forall j :: 0 <= j <= i ==> Gap(uses, issued, j) < ttl
  }

  /** A token that is not live is refused at every later use, whatever else is called and
      whatever cache commands fail. */
  lemma {:induction false} LapsedStaysLapsed(s: Sys, e: Env, ops: seq<Op>, a: string, u: string, revoked: bool, i: nat)
    requires FreshRun(s, e, ops) && a in s.owners.access && !Live(s.world, Access(a))
    requires i < |Uses(s, e, ops, a, u, revoked)|
    ensures !Uses(s, e, ops, a, u, revoked)[i].accepted
    ensures revoked ==> Uses(s, e, ops, a, u, revoked)[i].revoked
    decreases |ops|
  {
    var s', revoked' := Step(s, e, ops[0]).0, revoked || Acts(s, e, ops[0], u);
    StepNoRevival(s, e, ops[0]);
    if !IsUse(ops[0], a) {
      LapsedStaysLapsed(s', e, ops[1..], a, u, revoked', i);
    } else if i > 0 {
      LapsedStaysLapsed(s', e, ops[1..], a, u, revoked', i - 1);
    }
  }

  /** Without cache errors a validation of a is accepted if and only if its entry has not
      expired at the lookup, and then renews it. */
  lemma UseRenews(w: World, e: Env, token: string, a: string, issued: int)
    requires NoFaults(e) && a != "" && TrimSpace(token) == a
    requires Access(a) in w.kv && w.kv[Access(a)].expires == issued + e.cfg.accessTTL
    ensures var use, w' := UseOf(w, e, token, false), Validate(w, e.sc, e.cfg, token).0;
            && (use.accepted <==> use.asked - issued < e.cfg.accessTTL)
            && (use.accepted ==>
                  Access(a) in w'.kv && w'.kv[Access(a)].expires == use.renewed + e.cfg.accessTTL)
            && (!use.accepted ==> !Live(w', Access(a)))
  {
  }

  predicate SameAt(w: World, w': World, k: Key) {
    (k in w'.kv <==> k in w.kv) && (k in w.kv ==> w'.kv[k] == w.kv[k])
  }

  lemma OtherSet(w0: World, w: World, sc: Script, k: Key, value: string, ttl: int, l: Key)
    requires SameAt(w0, w, l) && k != l
    ensures SameAt(w0, AfterSet(w, sc, k, value, ttl), l)
  {
  }

  lemma OtherDelete(w0: World, w: World, sc: Script, k: Key, l: Key)
    requires SameAt(w0, w, l) && k != l
    ensures SameAt(w0, AfterDelete(w, sc, k), l)
  {
  }

  /** An invalidation for another user removes nothing of a's. */
  lemma OthersInvalidationKeeps(w: World, e: Env, v: string, o: Owners, a: string)
    requires AllOwned(w, o) && a in o.access && o.access[a] != v
    ensures SameAt(w, Invalidate(w, e.sc, v).0, Access(a))
  {
    var w2 := SessionRemoved(w, e, v);
    var named := NamedToken(w, e, v);
    SessionRemovedKeeps(w, e, v, Access(a));
    SessionRemovedKeeps(w, e, v, AccessSession(v));
    if named.Hit? {
      assert Owned(AccessSession(v), named.value, o);
      var w4 := AfterDelete(AfterGet(w2, e.sc), e.sc, AccessSession(v));
      OtherDelete(w, AfterGet(w2, e.sc), e.sc, AccessSession(v), Access(a));
      OtherDelete(w, w4, e.sc, Access(named.value), Access(a));
    }
    if Invalidate(w, e.sc, v).1 {
      InvalidateEnds(w, e, v);
    }
  }

  lemma SessionRemovedKeeps(w: World, e: Env, v: string, k: Key)
    requires k.Access? || k.AccessSession?
    ensures SameAt(w, SessionRemoved(w, e, v), k)
  {
  }

  lemma OtherRollBackKeeps(w0: World, w: World, sc: Script, v: string, p: TokenPair, a: string)
    requires SameAt(w0, w, Access(a)) && p.access != a
    ensures SameAt(w0, RollBack(w, sc, v, p), Access(a))
  {
    var w1 := AfterDelete(w, sc, Session(v));
    OtherDelete(w0, w, sc, Session(v), Access(a));
    OtherDelete(w0, w1, sc, CacheKeys.Refresh(p.refresh), Access(a));
    OtherDelete(w0, AfterDelete(w1, sc, CacheKeys.Refresh(p.refresh)), sc, Access(p.access), Access(a));
  }

  /** The writes of another pair leave a's entry alone, and so do their rollbacks. */
  lemma OtherWritesKeep(w: World, e: Env, v: string, p: TokenPair, a: string)
    requires p.access != a
    ensures SameAt(w, WriteTokens(w, e.sc, e.cfg, v, p).0, Access(a))
  {
    var w1 := AfterSet(w, e.sc, Session(v), p.refresh, e.cfg.refreshTTL);
    var w2 := AfterSet(w1, e.sc, CacheKeys.Refresh(p.refresh), v, e.cfg.refreshTTL);
    OtherSet(w, w, e.sc, Session(v), p.refresh, e.cfg.refreshTTL, Access(a));
    OtherSet(w, w1, e.sc, CacheKeys.Refresh(p.refresh), v, e.cfg.refreshTTL, Access(a));
    OtherDelete(w, w2, e.sc, Session(v), Access(a));
    OtherAccessWritesKeep(w, w2, e, v, p, a);
  }

  lemma OtherAccessWritesKeep(w0: World, w: World, e: Env, v: string, p: TokenPair, a: string)
    requires SameAt(w0, w, Access(a)) && p.access != a
    ensures SameAt(w0, WriteAccess(w, e.sc, e.cfg, v, p).0, Access(a))
  {
    var w1 := AfterSet(w, e.sc, Access(p.access), v, e.cfg.accessTTL);
    var w2 := AfterSet(w1, e.sc, AccessSession(v), p.access, e.cfg.accessTTL);
    OtherSet(w0, w, e.sc, Access(p.access), v, e.cfg.accessTTL, Access(a));
    OtherSet(w0, w1, e.sc, AccessSession(v), p.access, e.cfg.accessTTL, Access(a));
    OtherRollBackKeeps(w0, w1, e.sc, v, p, a);
    OtherRollBackKeeps(w0, w2, e.sc, v, p, a);
    OtherDelete(w0, RollBack(w2, e.sc, v, p), e.sc, AccessSession(v), Access(a));
  }

  /** A call that is no use of a and does not act for a's user leaves a's entry alone. */
  lemma OtherCallKeeps(s: Sys, e: Env, op: Op, a: string)
    requires AllOwned(s.world, s.owners) && Fresh(s, op) && a in s.owners.access
    requires !IsUse(op, a) && !Acts(s, e, op, s.owners.access[a])
    ensures SameAt(s.world, Step(s, e, op).0.world, Access(a))
  {
    match op
    case ValidateOp(token) => ValidateKeeps(s.world, e, token, Access(a));
    case LogoutOp(user, _) =>
      if TrimSpace(user) != "" {
        OthersInvalidationKeeps(s.world, e, TrimSpace(user), s.owners, a);
      }
    case _ =>
      var (w, check) := Checked(s.world, e, op);
      CheckGrows(s.world, e, op, s.owners);
      if check.Ok? {
        OthersInvalidationKeeps(w, e, check.value, s.owners, a);
        if op.gen.Ok? {
          OtherWritesKeep(Invalidate(w, e.sc, check.value).0, e, check.value, op.gen.value, a);
        }
      }
  }

  /** Without cache errors a call that acts for a's user ends a, even if it fails later on. */
  lemma ActingRevokes(s: Sys, e: Env, op: Op, a: string)
    requires NoFaults(e) && AllOwned(s.world, s.owners) && Linked(s.world) && Fresh(s, op)
    requires a in s.owners.access && Acts(s, e, op, s.owners.access[a])
    ensures !Live(Step(s, e, op).0.world, Access(a))
  {
    var u := s.owners.access[a];
    var w := if op.LogoutOp? then s.world else Checked(s.world, e, op).0;
    if !op.LogoutOp? {
      CheckGrows(s.world, e, op, s.owners);
    }
    DeletesWorkThen(e);
    InvalidateClears(w, e, u);
    InvalidateOwned(w, e.sc, u, s.owners);
    InvalidationWorks(w, e, u);
    if !op.LogoutOp? && op.gen.Ok? {
      IssueSparesNothing(Invalidate(w, e.sc, u).0, e, u, op.gen, a);
    }
  }

  lemma DeletesWorkThen(e: Env)
    requires NoFaults(e)
    ensures DeletesWork(e)
  {
    forall n: nat ensures Acked(World(map[], 0, n), e.sc, DeleteCommand) {
    }
  }

  lemma InvalidationWorks(w: World, e: Env, u: string)
    requires NoFaults(e)
    ensures Invalidate(w, e.sc, u).1
  {
  }

  lemma GapsShift(first: Use, rest: seq<Use>, issued: int, i: nat, ttl: int)
    requires 0 < i <= |rest| && first.asked - issued < ttl
    ensures GapsShort([first] + rest, issued, i, ttl) <==> GapsShort(rest, first.renewed, i - 1, ttl)
  {
    var uses := [first] + rest;
    assert forall j :: 0 < j <= i ==> Gap(uses, issued, j) == Gap(rest, first.renewed, j - 1);
    assert forall j :: 0 <= j <= i - 1 ==> Gap(rest, first.renewed, j) == Gap(uses, issued, j + 1);
    assert Gap(uses, issued, 0) == first.asked - issued;
  }

  /** A state in which u holds token a, last renewed at `issued`. */
  ghost predicate Holds(s: Sys, e: Env, a: string, u: string, issued: int) {
    && AllOwned(s.world, s.owners) && Linked(s.world)
    && a in s.owners.access && s.owners.access[a] == u
    && Access(a) in s.world.kv && s.world.kv[Access(a)].expires == issued + e.cfg.accessTTL
  }

  lemma OtherCallHolds(s: Sys, e: Env, op: Op, a: string, u: string, issued: int)
    requires NoFaults(e) && Holds(s, e, a, u, issued) && Fresh(s, op)
    requires !IsUse(op, a) && !Acts(s, e, op, u)
    ensures Holds(Step(s, e, op).0, e, a, u, issued)
  {
    OtherCallKeeps(s, e, op, a);
    CallKeepsInvariants(s, e, op);
    StepNoRevival(s, e, op);
  }

  lemma CallKeepsInvariants(s: Sys, e: Env, op: Op)
    requires NoFaults(e) && AllOwned(s.world, s.owners) && Linked(s.world) && Fresh(s, op)
    ensures var s' := Step(s, e, op).0; AllOwned(s'.world, s'.owners) && Linked(s'.world)
  {
    DeletesWorkThen(e);
    StepOwned(s, e, op);
    StepLinks(s, e, op);
  }

  lemma UseHolds(s: Sys, e: Env, op: Op, a: string, u: string, issued: int)
    requires NoFaults(e) && Holds(s, e, a, u, issued) && IsUse(op, a) && a != ""
    ensures var use, s' := UseOf(s.world, e, op.token, false), Step(s, e, op).0;
            && (use.accepted <==> use.asked - issued < e.cfg.accessTTL)
            && (use.accepted ==> Holds(s', e, a, u, use.renewed))
            && (!use.accepted ==> a in s'.owners.access && !Live(s'.world, Access(a)))
  {
    UseRenews(s.world, e, op.token, a, issued);
    CallKeepsInvariants(s, e, op);
  }

  /** With no cache errors, in a run of any calls of any users: use i of a token is
      accepted exactly when no call has acted for its user before and every gap between
      uses up to it stays below the lifetime. */
  lemma {:induction false} AcceptedWhileGapsAreShort(s: Sys, e: Env, ops: seq<Op>, a: string, u: string,
                                                    issued: int, i: nat)
    requires NoFaults(e) && FreshRun(s, e, ops) && Holds(s, e, a, u, issued) && a != ""
    requires i < |Uses(s, e, ops, a, u, false)|
    ensures var uses := Uses(s, e, ops, a, u, false);
            uses[i].accepted <==> !uses[i].revoked && GapsShort(uses, issued, i, e.cfg.accessTTL)
    decreases |ops|
  {
    var op, s' := ops[0], Step(s, e, ops[0]).0;
    if Acts(s, e, op, u) {
      ActingRevokes(s, e, op, a);
      StepNoRevival(s, e, op);
      LapsedStaysLapsed(s', e, ops[1..], a, u, true, i);
    } else if !IsUse(op, a) {
      OtherCallHolds(s, e, op, a, u, issued);
      AcceptedWhileGapsAreShort(s', e, ops[1..], a, u, issued, i);
    } else {
      AfterAUse(s, e, ops, a, u, issued, i);
    }
  }

  /** The run starts with a use of a. */
  lemma {:induction false} AfterAUse(s: Sys, e: Env, ops: seq<Op>, a: string, u: string, issued: int, i: nat)
    requires NoFaults(e) && FreshRun(s, e, ops) && Holds(s, e, a, u, issued) && a != ""
    requires ops != [] && IsUse(ops[0], a)
    requires i < |Uses(s, e, ops, a, u, false)|
    ensures var uses := Uses(s, e, ops, a, u, false);
            uses[i].accepted <==> !uses[i].revoked && GapsShort(uses, issued, i, e.cfg.accessTTL)
    decreases |ops|, 0
  {
    var s' := Step(s, e, ops[0]).0;
    var first, rest := UseOf(s.world, e, ops[0].token, false), Uses(s', e, ops[1..], a, u, false);
    UseHolds(s, e, ops[0], a, u, issued);
    assert Uses(s, e, ops, a, u, false) == [first] + rest;
    assert Gap([first] + rest, issued, 0) == first.asked - issued;
    if i > 0 && first.accepted {
      AcceptedWhileGapsAreShort(s', e, ops[1..], a, u, first.renewed, i - 1);
      GapsShift(first, rest, issued, i, e.cfg.accessTTL);
    } else if i > 0 {
      LapsedStaysLapsed(s', e, ops[1..], a, u, false, i - 1);
    }
  }

  /** The clock of a new pair starts at its third write, and only then. */
  lemma IssueStartsTheClock(w: World, e: Env, u: string, p: TokenPair) returns (issued: int)
    requires WriteTokens(w, e.sc, e.cfg, u, p).1
    ensures var w' := WriteTokens(w, e.sc, e.cfg, u, p).0;
            && w.now <= issued <= w'.now
            && Access(p.access) in w'.kv && w'.kv[Access(p.access)] == Entry(u, issued + e.cfg.accessTTL)
            && AccessSession(u) in w'.kv && w'.kv[AccessSession(u)] == Entry(p.access, w'.now + e.cfg.accessTTL)
            && Session(u) in w'.kv && w'.kv[Session(u)].value == p.refresh
            && Refresh(p.refresh) in w'.kv && w'.kv[Refresh(p.refresh)].value == u
            && w.now + e.cfg.refreshTTL <= w'.kv[Session(u)].expires
               <= w'.kv[Refresh(p.refresh)].expires <= issued + e.cfg.refreshTTL
  {
    var w1 := AfterSet(w, e.sc, Session(u), p.refresh, e.cfg.refreshTTL);
    var w2 := AfterSet(w1, e.sc, Refresh(p.refresh), u, e.cfg.refreshTTL);
    issued := Advance(w2, e.sc, SetCommand).now;
  }

  /** A new refresh token is exchanged for a new pair, within its lifetime. */
  lemma NewRefreshTokenWorks(w: World, e: Env, u: string, p: TokenPair, q: TokenPair)
    requires NoFaults(e) && p.refresh != "" && TrimSpace(p.refresh) == p.refresh
    ensures var w' := WriteTokens(w, e.sc, e.cfg, u, p).0;
            AfterGet(AfterGet(w', e.sc), e.sc).now < w.now + e.cfg.refreshTTL ==>
              RefreshTokens(w', e.sc, e.cfg, p.refresh, Found, Ok(q), true).1 == Ok(q)
  {
    var issued := IssueStartsTheClock(w, e, u, p);
    var w' := WriteTokens(w, e.sc, e.cfg, u, p).0;
    if AfterGet(AfterGet(w', e.sc), e.sc).now < w.now + e.cfg.refreshTTL {
      var (w1, check) := RefreshCheck(w', e.sc, p.refresh, Found);
      assert check == Ok(u);
      IssueWorks(w1, e, u, q);
    }
  }

  lemma IssueWorks(w: World, e: Env, u: string, q: TokenPair)
    requires NoFaults(e)
    ensures AuthSpec.IssueTokens(w, e.sc, e.cfg, u, Ok(q)).1 == Ok(q)
  {
    assert forall n: nat, c :: e.sc(n, c).fault == NoFault;
  }

  /** A Login or Refresh that returned a pair to u leaves u holding its access token. */
  lemma IssueHolds(s: Sys, e: Env, op: Op, u: string, p: TokenPair) returns (issued: int)
    requires NoFaults(e) && AllOwned(s.world, s.owners) && Linked(s.world) && Fresh(s, op)
    requires !op.LogoutOp? && ActsFor(s, e, op) == Ok(u) && Step(s, e, op).1 == Issued(Ok(p))
    ensures s.world.now <= issued <= Step(s, e, op).0.world.now
    ensures Holds(Step(s, e, op).0, e, p.access, u, issued)
  {
    var w := Invalidate(Checked(s.world, e, op).0, e.sc, u).0;
    CheckGrows(s.world, e, op, s.owners);
    InvalidateGrows(Checked(s.world, e, op).0, e.sc, u, s.owners);
    CallKeepsInvariants(s, e, op);
    issued := IssueStartsTheClock(w, e, u, p);
  }

  /** From any Login or Refresh on that returned a pair, in the middle of any run: the
      access token works until its user's next Login, Refresh or Logout gets past its
      checks, as long as no two uses are a lifetime apart, whatever is called besides. */
  lemma SlidingSession(e0: Env, before: seq<Op>, e: Env, op: Op, u: string, p: TokenPair, ops: seq<Op>)
    returns (issued: int)
    requires FreshRun(EMPTY, e0, before) && DeletesWork(e0) && RenewalsWork(EMPTY, e0, before)
    requires NoFaults(e) && p.access != ""
    requires var s := Run(EMPTY, e0, before);
             && Fresh(s, op) && !op.LogoutOp? && ActsFor(s, e, op) == Ok(u)
             && Step(s, e, op).1 == Issued(Ok(p)) && FreshRun(Step(s, e, op).0, e, ops)
    ensures var s := Run(EMPTY, e0, before);
            && s.world.now <= issued <= Step(s, e, op).0.world.now
            && var uses := Uses(Step(s, e, op).0, e, ops, p.access, u, false);
               forall i :: 0 <= i < |uses| ==>
                 (uses[i].accepted <==> !uses[i].revoked && GapsShort(uses, issued, i, e.cfg.accessTTL))
  {
    RunLinks(EMPTY, e0, before);
    var s := Run(EMPTY, e0, before);
    issued := IssueHolds(s, e, op, u, p);
    var s' := Step(s, e, op).0;
    var uses := Uses(s', e, ops, p.access, u, false);
    forall i | 0 <= i < |uses|
      ensures uses[i].accepted <==> !uses[i].revoked && GapsShort(uses, issued, i, e.cfg.accessTTL)
    {
      AcceptedWhileGapsAreShort(s', e, ops, p.access, u, issued, i);
    }
  }

  // ----- the hypotheses on renewals and deletes are needed -----

  const LOST: Env := Env(
    (n, c) => if n == 6 then Turn(5, NoFault)
              else if n == 8 && c == SetCommand then Turn(0, Dropped)
              else if n == 9 then Turn(7, NoFault)
              else Turn(0, NoFault),
    Config(10, 100))

  const LOGIN := LoginOp(Ok("u"), Ok(TokenPair("a", "r")), true)

  const RENEW := ValidateOp("a")

  const LOGOUT := LogoutOp("u", true)

  const GIVEN := Owners(map["a" := "u"], map["r" := "u"])

  const LOGGED_IN := Sys(World(map[Session("u") := Entry("r", 100), Refresh("r") := Entry("u", 100),
                                   Access("a") := Entry("u", 10), AccessSession("u") := Entry("a", 10)],
                               0, 6), GIVEN)

  const RENEWED := Sys(World(LOGGED_IN.world.kv[Access("a") := Entry("u", 15)], 5, 9), GIVEN)

  const LOGGED_OUT := Sys(World(RENEWED.world.kv - {Session("u"), Refresh("r")}, 12, 13), GIVEN)

  /** The first six commands run at once and work. */
  predicate QuietStart(e: Env) {
    e.cfg == Config(10, 100) && forall n: nat, c :: n < 6 ==> e.sc(n, c) == Turn(0, NoFault)
  }

  lemma SetNow(w: World, e: Env, k: Key, value: string, ttl: int)
    requires QuietStart(e) && w.turn < 6
    ensures AfterSet(w, e.sc, k, value, ttl) == World(w.kv[k := Entry(value, w.now + ttl)], w.now, w.turn + 1)
    ensures Acked(w, e.sc, SetCommand)
  {
    assert e.sc(w.turn, SetCommand) == Turn(0, NoFault);
  }

  lemma NothingToInvalidate(e: Env)
    requires QuietStart(e)
    ensures Invalidate(EMPTY.world, e.sc, "u") == (World(map[], 0, 2), true)
  {
    assert e.sc(0, GetCommand) == Turn(0, NoFault) && e.sc(1, GetCommand) == Turn(0, NoFault);
  }

  lemma FirstWrites(e: Env)
    requires QuietStart(e)
    ensures WriteTokens(World(map[], 0, 2), e.sc, e.cfg, "u", TokenPair("a", "r")) == (LOGGED_IN.world, true)
  {
    var w := World(map[], 0, 2);
    var w1 := World(map[Session("u") := Entry("r", 100)], 0, 3);
    var w2 := World(w1.kv[Refresh("r") := Entry("u", 100)], 0, 4);
    var w3 := World(w2.kv[Access("a") := Entry("u", 10)], 0, 5);
    SetNow(w, e, Session("u"), "r", 100);
    SetNow(w1, e, Refresh("r"), "u", 100);
    SetNow(w2, e, Access("a"), "u", 10);
    SetNow(w3, e, AccessSession("u"), "a", 10);
    assert w3.kv[AccessSession("u") := Entry("a", 10)] == LOGGED_IN.world.kv;
  }

  lemma FirstLogin(e: Env)
    requires QuietStart(e)
    ensures Step(EMPTY, e, LOGIN) == (LOGGED_IN, Issued(Ok(TokenPair("a", "r"))))
  {
    NothingToInvalidate(e);
    FirstWrites(e);
  }

  lemma LostRenewal()
    ensures Step(LOGGED_IN, LOST, RENEW) == (RENEWED, Accepted(Err(Internal)))
    ensures !RenewalWorks(LOGGED_IN, LOST, RENEW)
  {
    assert TrimSpace("a") == "a";
  }

  lemma LostLogout()
    ensures Step(RENEWED, LOST, LOGOUT) == (LOGGED_OUT, LoggedOut(Ok(())))
  {
    assert TrimSpace("u") == "u";
    var w := AfterDelete(AfterDelete(AfterGet(RENEWED.world, LOST.sc), LOST.sc, Session("u")), LOST.sc, Refresh("r"));
    assert w == World(LOGGED_OUT.world.kv, 12, 12);
    assert GetReply(w, LOST.sc, AccessSession("u")).Miss?;
  }

  lemma StillAccepted()
    ensures Step(LOGGED_OUT, LOST, RENEW).1 == Accepted(Ok("u"))
  {
    assert TrimSpace("a") == "a";
    assert GetReply(LOGGED_OUT.world, LOST.sc, Access("a")) == Hit("u");
  }

  lemma RunOfTwo(s: Sys, e: Env, x: Op, y: Op)
    ensures Run(s, e, [x, y]) == Step(Step(s, e, x).0, e, y).0
    ensures FreshRun(s, e, [x, y]) == (Fresh(s, x) && Fresh(Step(s, e, x).0, y))
    ensures RenewalsWork(s, e, [x, y]) == (RenewalWorks(s, e, x) && RenewalWorks(Step(s, e, x).0, e, y))
  {
    var s' := Step(s, e, x).0;
    assert [x, y][1..] == [y] && [y][1..] == [];
    assert Run(s', e, [y]) == Run(Step(s', e, y).0, e, []);
    assert FreshRun(s', e, [y]) == Fresh(s', y);
    assert RenewalsWork(s', e, [y]) == RenewalWorks(s', e, y);
  }

  /** A validation loses its second write; the access-session entry then lapses
      first, Logout succeeds without finding the token, and it is still accepted.
      No other command fails. */
  lemma LostRenewalOutlivesLogout()
    ensures forall n: nat, c :: LOST.sc(n, c).fault != NoFault <==> n == 8 && c == SetCommand
    ensures DeletesWork(LOST)
    ensures FreshRun(EMPTY, LOST, [LOGIN, RENEW])
    ensures !RenewalsWork(EMPTY, LOST, [LOGIN, RENEW])
    ensures var s := Run(EMPTY, LOST, [LOGIN, RENEW]);
            && Step(s, LOST, LOGOUT).1 == LoggedOut(Ok(()))
            && Step(Step(s, LOST, LOGOUT).0, LOST, RENEW).1 == Accepted(Ok("u"))
  {
    OnlyOneSetFails();
    FirstLogin(LOST);
    LostRenewal();
    LostLogout();
    StillAccepted();
    RunOfTwo(EMPTY, LOST, LOGIN, RENEW);
  }

  lemma OnlyOneSetFails()
    ensures forall n: nat, c :: LOST.sc(n, c).fault != NoFault <==> n == 8 && c == SetCommand
    ensures DeletesWork(LOST)
  {
    forall n: nat ensures Acked(World(map[], 0, n), LOST.sc, DeleteCommand) {
    }
  }

  const UNDELETED: Env := Env(
    (n, c) => if n == 11 && c == DeleteCommand then Turn(0, Dropped) else Turn(0, NoFault),
    Config(10, 100))

  /** A Logout finds the token but loses its deletion, and reports success all the same;
      the token is still accepted. No other command fails. */
  lemma LostDeleteOutlivesLogout()
    ensures forall n: nat, c :: UNDELETED.sc(n, c).fault != NoFault <==> n == 11 && c == DeleteCommand
    ensures Run(EMPTY, UNDELETED, [LOGIN]) == LOGGED_IN
    ensures NamedToken(LOGGED_IN.world, UNDELETED, "u") == Hit("a")
    ensures Step(LOGGED_IN, UNDELETED, LOGOUT).1 == LoggedOut(Ok(()))
    ensures LiveAs(Step(LOGGED_IN, UNDELETED, LOGOUT).0.world, Access("a"), "u")
  {
    FirstLogin(UNDELETED);
    assert [LOGIN][1..] == [];
    assert Run(LOGGED_IN, UNDELETED, []) == LOGGED_IN;
    LogoutUndeleted();
  }

  const SESSIONLESS := World(map[Access("a") := Entry("u", 10), AccessSession("u") := Entry("a", 10)], 0, 9)

  lemma SessionUndone()
    ensures SessionRemoved(LOGGED_IN.world, UNDELETED, "u") == SESSIONLESS
  {
    assert GetReply(LOGGED_IN.world, UNDELETED.sc, Session("u")) == Hit("r");
    var w1 := AfterDelete(AfterGet(LOGGED_IN.world, UNDELETED.sc), UNDELETED.sc, Session("u"));
    assert w1.kv == LOGGED_IN.world.kv - {Session("u")} && w1.turn == 8 && w1.now == 0;
    assert AfterDelete(w1, UNDELETED.sc, Refresh("r")).kv == SESSIONLESS.kv;
  }

  lemma UndeletedInvalidates()
    ensures Invalidate(LOGGED_IN.world, UNDELETED.sc, "u").1
  {
    SessionUndone();
    assert GetReply(SESSIONLESS, UNDELETED.sc, AccessSession("u")) == Hit("a");
  }

  lemma LogoutUndeleted()
    ensures NamedToken(LOGGED_IN.world, UNDELETED, "u") == Hit("a")
    ensures Step(LOGGED_IN, UNDELETED, LOGOUT).1 == LoggedOut(Ok(()))
    ensures LiveAs(Step(LOGGED_IN, UNDELETED, LOGOUT).0.world, Access("a"), "u")
  {
    assert TrimSpace("u") == "u";
    SessionUndone();
    UndeletedInvalidates();
    InvalidateEnds(LOGGED_IN.world, UNDELETED, "u");
  }
}
