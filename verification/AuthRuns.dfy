/** Runs of the auth service over one cache: which tokens stay acceptable.
    Calls do not interleave; the clock may advance before every cache command,
    and cache commands may fail except where a lemma says otherwise. */
module AuthRuns {
  import opened Text
  import opened CacheKeys
  import opened Cache
  import opened AuthSpec

  type Gen = Result<TokenPair, AuthError>

  /** For whom each token was generated, over the whole past. */
  datatype Owners = Owners(access: map<string, string>, refresh: map<string, string>)

  datatype Sys = Sys(world: World, owners: Owners)

  const EMPTY := Sys(World(map[], 0, 0), Owners(map[], map[]))

  datatype Env = Env(sc: Script, cfg: Config)

  datatype Op =
    | LoginOp(check: Result<string, AuthError>, gen: Gen, statusOk: bool)
    | RefreshOp(token: string, lookup: Lookup, gen: Gen, statusOk: bool)
    | LogoutOp(user: string, statusOk: bool)
    | ValidateOp(token: string)

  datatype Answer =
    | Issued(pair: Gen)
    | LoggedOut(done: Result<(), AuthError>)
    | Accepted(who: Result<string, AuthError>)

  /** The world in which a Login or Refresh starts to issue, and for whom. */
  function Checked(w: World, e: Env, op: Op): (World, Result<string, AuthError>)
    requires op.LoginOp? || op.RefreshOp?
  {
    if op.LoginOp? then (w, op.check) else RefreshCheck(w, e.sc, TrimSpace(op.token), op.lookup)
  }

  function Generated(o: Owners, u: string, gen: Gen): Owners {
    if gen.Err? then o else Owners(o.access[gen.value.access := u], o.refresh[gen.value.refresh := u])
  }

  function Step(s: Sys, e: Env, op: Op): (Sys, Answer) {
    match op
    case LoginOp(_, gen, statusOk) =>
      var (w, r) := Login(s.world, e.sc, e.cfg, op.check, gen, statusOk);
      (Sys(w, if op.check.Ok? then Generated(s.owners, op.check.value, gen) else s.owners), Issued(r))
    case RefreshOp(token, lookup, gen, statusOk) =>
      var (w, r) := RefreshTokens(s.world, e.sc, e.cfg, token, lookup, gen, statusOk);
      var check := Checked(s.world, e, op).1;
      (Sys(w, if check.Ok? then Generated(s.owners, check.value, gen) else s.owners), Issued(r))
    case LogoutOp(user, statusOk) =>
      var (w, r) := Logout(s.world, e.sc, user, statusOk);
      (Sys(w, s.owners), LoggedOut(r))
    case ValidateOp(token) =>
      var (w, r) := Validate(s.world, e.sc, e.cfg, token);
      (Sys(w, s.owners), Accepted(r))
  }

  /** The random source never repeats itself. */
  predicate Fresh(s: Sys, op: Op) {
    (op.LoginOp? || op.RefreshOp?) && op.gen.Ok? ==>
      op.gen.value.access !in s.owners.access && op.gen.value.refresh !in s.owners.refresh
  }

  function Run(s: Sys, e: Env, ops: seq<Op>): Sys
    decreases |ops|
  {
    if ops == [] then s else Run(Step(s, e, ops[0]).0, e, ops[1..])
  }

  predicate FreshRun(s: Sys, e: Env, ops: seq<Op>)
    decreases |ops|
  {
    ops == [] || (Fresh(s, ops[0]) && FreshRun(Step(s, e, ops[0]).0, e, ops[1..]))
  }

  // ----- every entry belongs to the user its token was generated for -----

  predicate Owned(k: Key, value: string, o: Owners) {
    match k
    case Session(u) => value in o.refresh && o.refresh[value] == u
    case Refresh(t) => t in o.refresh && o.refresh[t] == value
    case Access(a) => a in o.access && o.access[a] == value
    case AccessSession(u) => value in o.access && o.access[value] == u
  }

  predicate AllOwned(w: World, o: Owners) {
    forall k :: k in w.kv ==> Owned(k, w.kv[k].value, o)
  }

  lemma InvalidateOwned(w: World, sc: Script, u: string, o: Owners)
    requires AllOwned(w, o)
    ensures AllOwned(Invalidate(w, sc, u).0, o)
  {
  }

  lemma SetOwned(w: World, sc: Script, k: Key, value: string, ttl: int, o: Owners)
    requires AllOwned(w, o) && Owned(k, value, o)
    ensures AllOwned(AfterSet(w, sc, k, value, ttl), o)
  {
  }

  lemma DeleteOwned(w: World, sc: Script, k: Key, o: Owners)
    requires AllOwned(w, o)
    ensures AllOwned(AfterDelete(w, sc, k), o)
  {
  }

  lemma RollBackOwned(w: World, sc: Script, u: string, p: TokenPair, o: Owners)
    requires AllOwned(w, o)
    ensures AllOwned(RollBack(w, sc, u, p), o)
  {
    var w1 := AfterDelete(w, sc, Session(u));
    DeleteOwned(w, sc, Session(u), o);
    DeleteOwned(w1, sc, Refresh(p.refresh), o);
    DeleteOwned(AfterDelete(w1, sc, Refresh(p.refresh)), sc, Access(p.access), o);
  }

  lemma WriteAccessOwned(w: World, e: Env, u: string, p: TokenPair, o: Owners)
    requires AllOwned(w, o)
    requires p.access in o.access && o.access[p.access] == u
    ensures AllOwned(WriteAccess(w, e.sc, e.cfg, u, p).0, o)
  {
    var w1 := AfterSet(w, e.sc, Access(p.access), u, e.cfg.accessTTL);
    var w2 := AfterSet(w1, e.sc, AccessSession(u), p.access, e.cfg.accessTTL);
    SetOwned(w, e.sc, Access(p.access), u, e.cfg.accessTTL, o);
    SetOwned(w1, e.sc, AccessSession(u), p.access, e.cfg.accessTTL, o);
    RollBackOwned(w1, e.sc, u, p, o);
    RollBackOwned(w2, e.sc, u, p, o);
    DeleteOwned(RollBack(w2, e.sc, u, p), e.sc, AccessSession(u), o);
  }

  lemma WriteTokensOwned(w: World, e: Env, u: string, p: TokenPair, o: Owners)
    requires AllOwned(w, o)
    requires p.access in o.access && o.access[p.access] == u
    requires p.refresh in o.refresh && o.refresh[p.refresh] == u
    ensures AllOwned(WriteTokens(w, e.sc, e.cfg, u, p).0, o)
  {
    var w1 := AfterSet(w, e.sc, Session(u), p.refresh, e.cfg.refreshTTL);
    var w2 := AfterSet(w1, e.sc, Refresh(p.refresh), u, e.cfg.refreshTTL);
    SetOwned(w, e.sc, Session(u), p.refresh, e.cfg.refreshTTL, o);
    SetOwned(w1, e.sc, Refresh(p.refresh), u, e.cfg.refreshTTL, o);
    DeleteOwned(w2, e.sc, Session(u), o);
    WriteAccessOwned(w2, e, u, p, o);
  }

  lemma LoginOwned(w: World, e: Env, u: string, gen: Gen, statusOk: bool, o: Owners)
    requires AllOwned(w, o)
    requires gen.Ok? ==> gen.value.access !in o.access && gen.value.refresh !in o.refresh
    ensures AllOwned(Login(w, e.sc, e.cfg, Ok(u), gen, statusOk).0, Generated(o, u, gen))
  {
    var o' := Generated(o, u, gen);
    assert AllOwned(w, o');
    InvalidateOwned(w, e.sc, u, o');
    if gen.Ok? {
      WriteTokensOwned(Invalidate(w, e.sc, u).0, e, u, gen.value, o');
    }
  }

  lemma StepOwned(s: Sys, e: Env, op: Op)
    requires AllOwned(s.world, s.owners) && Fresh(s, op)
    ensures var s' := Step(s, e, op).0; AllOwned(s'.world, s'.owners)
  {
    match op
    case LoginOp(check, gen, statusOk) =>
      if check.Ok? {
        LoginOwned(s.world, e, check.value, gen, statusOk, s.owners);
      }
    case RefreshOp(_, _, gen, statusOk) =>
      var (w, check) := Checked(s.world, e, op);
      if check.Ok? {
        LoginOwned(w, e, check.value, gen, statusOk, s.owners);
      }
    case LogoutOp(user, _) =>
      InvalidateOwned(s.world, e.sc, TrimSpace(user), s.owners);
    case ValidateOp(_) =>
  }

  // ----- a token that is not acceptable now never becomes acceptable -----

  /** Refresh(t) gets past its two lookups. */
  predicate Exchangeable(w: World, o: Owners, t: string) {
    t in o.refresh && Live(w, Refresh(t)) && LiveAs(w, Session(o.refresh[t]), t)
  }

  predicate NewEntry(k: Key, value: string, o: Owners) {
    match k
    case Session(_) => value !in o.refresh
    case Refresh(t) => t !in o.refresh
    case Access(a) => a !in o.access
    case AccessSession(_) => true
  }

  /** From w to w' time passes, entries may go, and entries that name no token of o may come. */
  predicate Grows(w: World, w': World, o: Owners) {
    && w.now <= w'.now
    && forall k :: k in w'.kv ==>
         (k in w.kv && w'.kv[k] == w.kv[k]) || NewEntry(k, w'.kv[k].value, o)
  }

  lemma InvalidateGrows(w: World, sc: Script, u: string, o: Owners)
    ensures Grows(w, Invalidate(w, sc, u).0, o)
  {
  }

  lemma SetGrows(w0: World, w: World, sc: Script, k: Key, value: string, ttl: int, o: Owners)
    requires Grows(w0, w, o) && NewEntry(k, value, o)
    ensures Grows(w0, AfterSet(w, sc, k, value, ttl), o)
  {
  }

  lemma DeleteGrows(w0: World, w: World, sc: Script, k: Key, o: Owners)
    requires Grows(w0, w, o)
    ensures Grows(w0, AfterDelete(w, sc, k), o)
  {
  }

  lemma RollBackGrows(w0: World, w: World, sc: Script, u: string, p: TokenPair, o: Owners)
    requires Grows(w0, w, o)
    ensures Grows(w0, RollBack(w, sc, u, p), o)
  {
    var w1 := AfterDelete(w, sc, Session(u));
    DeleteGrows(w0, w, sc, Session(u), o);
    DeleteGrows(w0, w1, sc, Refresh(p.refresh), o);
    DeleteGrows(w0, AfterDelete(w1, sc, Refresh(p.refresh)), sc, Access(p.access), o);
  }

  lemma WriteAccessGrows(w0: World, w: World, e: Env, u: string, p: TokenPair, o: Owners)
    requires Grows(w0, w, o) && p.access !in o.access
    ensures Grows(w0, WriteAccess(w, e.sc, e.cfg, u, p).0, o)
  {
    var w1 := AfterSet(w, e.sc, Access(p.access), u, e.cfg.accessTTL);
    var w2 := AfterSet(w1, e.sc, AccessSession(u), p.access, e.cfg.accessTTL);
    SetGrows(w0, w, e.sc, Access(p.access), u, e.cfg.accessTTL, o);
    SetGrows(w0, w1, e.sc, AccessSession(u), p.access, e.cfg.accessTTL, o);
    RollBackGrows(w0, w1, e.sc, u, p, o);
    RollBackGrows(w0, w2, e.sc, u, p, o);
    DeleteGrows(w0, RollBack(w2, e.sc, u, p), e.sc, AccessSession(u), o);
  }

  lemma WriteTokensGrows(w: World, e: Env, u: string, p: TokenPair, o: Owners)
    requires p.access !in o.access && p.refresh !in o.refresh
    ensures Grows(w, WriteTokens(w, e.sc, e.cfg, u, p).0, o)
  {
    var w1 := AfterSet(w, e.sc, Session(u), p.refresh, e.cfg.refreshTTL);
    var w2 := AfterSet(w1, e.sc, Refresh(p.refresh), u, e.cfg.refreshTTL);
    SetGrows(w, w, e.sc, Session(u), p.refresh, e.cfg.refreshTTL, o);
    SetGrows(w, w1, e.sc, Refresh(p.refresh), u, e.cfg.refreshTTL, o);
    DeleteGrows(w, w2, e.sc, Session(u), o);
    WriteAccessGrows(w, w2, e, u, p, o);
  }

  lemma LoginGrows(w: World, e: Env, check: Result<string, AuthError>, gen: Gen, statusOk: bool, o: Owners)
    requires gen.Ok? ==> gen.value.access !in o.access && gen.value.refresh !in o.refresh
    ensures Grows(w, Login(w, e.sc, e.cfg, check, gen, statusOk).0, o)
  {
    if check.Ok? {
      InvalidateGrows(w, e.sc, check.value, o);
      if gen.Ok? {
        WriteTokensGrows(Invalidate(w, e.sc, check.value).0, e, check.value, gen.value, o);
      }
    }
  }

  /** No token generated before the step gains acceptance by it, whatever fails. */
  predicate NoRevival(s: Sys, s': Sys) {
    && (forall a :: a in s.owners.access ==>
          a in s'.owners.access && s'.owners.access[a] == s.owners.access[a] &&
          (Live(s'.world, Access(a)) ==> Live(s.world, Access(a))))
    && (forall t :: t in s.owners.refresh ==>
          t in s'.owners.refresh && s'.owners.refresh[t] == s.owners.refresh[t] &&
          (Exchangeable(s'.world, s'.owners, t) ==> Exchangeable(s.world, s.owners, t)))
  }

  lemma GrowthRevivesNothing(s: Sys, s': Sys)
    requires Grows(s.world, s'.world, s.owners)
    requires forall a :: a in s.owners.access ==>
               a in s'.owners.access && s'.owners.access[a] == s.owners.access[a]
    requires forall t :: t in s.owners.refresh ==>
               t in s'.owners.refresh && s'.owners.refresh[t] == s.owners.refresh[t]
    ensures NoRevival(s, s')
  {
  }

  /** A validation writes only the entries of its own token and of that token's user, and
      only if the token was live. */
  lemma ValidateKeeps(w: World, e: Env, token: string, k: Key)
    ensures var w' := Validate(w, e.sc, e.cfg, token).0;
            && w.now <= w'.now
            && (!k.AccessSession? && k != Access(TrimSpace(token)) ==>
                  (k in w'.kv <==> k in w.kv) && (k in w.kv ==> w'.kv[k] == w.kv[k]))
            && (Live(w', Access(TrimSpace(token))) ==> Live(w, Access(TrimSpace(token))))
  {
  }

  lemma ValidateRevivesNothing(s: Sys, e: Env, token: string)
    ensures NoRevival(s, Step(s, e, ValidateOp(token)).0)
  {
    var w := Validate(s.world, e.sc, e.cfg, token).0;
    forall a ensures Live(w, Access(a)) ==> Live(s.world, Access(a)) {
      ValidateKeeps(s.world, e, token, Access(a));
    }
    forall t | Exchangeable(w, s.owners, t) ensures Exchangeable(s.world, s.owners, t) {
      ValidateKeeps(s.world, e, token, CacheKeys.Refresh(t));
      ValidateKeeps(s.world, e, token, Session(s.owners.refresh[t]));
    }
  }

  lemma IssueRevivesNothing(s: Sys, e: Env, w: World, check: Result<string, AuthError>, gen: Gen, statusOk: bool)
    requires Grows(s.world, w, s.owners)
    requires gen.Ok? ==> gen.value.access !in s.owners.access && gen.value.refresh !in s.owners.refresh
    ensures NoRevival(s, Sys(Login(w, e.sc, e.cfg, check, gen, statusOk).0,
                             if check.Ok? then Generated(s.owners, check.value, gen) else s.owners))
  {
    var w' := Login(w, e.sc, e.cfg, check, gen, statusOk).0;
    LoginGrows(w, e, check, gen, statusOk, s.owners);
    assert Grows(s.world, w', s.owners);
    GrowthRevivesNothing(s, Sys(w', if check.Ok? then Generated(s.owners, check.value, gen) else s.owners));
  }

  lemma CheckGrows(w: World, e: Env, op: Op, o: Owners)
    requires op.LoginOp? || op.RefreshOp?
    ensures Grows(w, Checked(w, e, op).0, o) && Checked(w, e, op).0.kv == w.kv
  {
  }

  lemma StepNoRevival(s: Sys, e: Env, op: Op)
    requires Fresh(s, op)
    ensures NoRevival(s, Step(s, e, op).0)
  {
    match op
    case LoginOp(check, gen, statusOk) =>
      IssueRevivesNothing(s, e, s.world, check, gen, statusOk);
    case RefreshOp(_, _, gen, statusOk) =>
      var (w, check) := Checked(s.world, e, op);
      CheckGrows(s.world, e, op, s.owners);
      IssueRevivesNothing(s, e, w, check, gen, statusOk);
    case LogoutOp(user, _) =>
      InvalidateGrows(s.world, e.sc, TrimSpace(user), s.owners);
      GrowthRevivesNothing(s, Step(s, e, op).0);
    case ValidateOp(token) =>
      ValidateRevivesNothing(s, e, token);
  }

  /** Acceptance only ever shrinks, over every run and under any cache faults. */
  lemma {:induction false} RunNoRevival(s: Sys, e: Env, ops: seq<Op>)
    requires AllOwned(s.world, s.owners) && FreshRun(s, e, ops)
    ensures var s' := Run(s, e, ops); AllOwned(s'.world, s'.owners) && NoRevival(s, s')
    decreases |ops|
  {
    if ops != [] {
      StepOwned(s, e, ops[0]);
      StepNoRevival(s, e, ops[0]);
      RunNoRevival(Step(s, e, ops[0]).0, e, ops[1..]);
    }
  }
}
