/** What the auth service does to the cache, as functions of the world the
    command sequence starts in. */
module AuthSpec {
  import opened Text
  import opened CacheKeys
  import opened Cache

  datatype AuthError =
    | InvalidRefreshToken
    | InvalidAccessToken
    | MissingUserID
    | MissingEmail
    | MissingPassword
    | InvalidCredentials
    | Internal   // cache, repository or random source failed

  datatype TokenPair = TokenPair(access: string, refresh: string)

  /** Answer of the users table to GetByID. */
  datatype Lookup = Found | NoRows | LookupFailed

  /** Answer of the users table to GetByEmail. */
  datatype ByEmail = User(id: string) | NoUser | EmailLookupFailed

  type Lifetime = t: int | 0 < t witness 1

  datatype Config = Config(accessTTL: Lifetime, refreshTTL: Lifetime)

  function Invalidate(w: World, sc: Script, u: string): (World, bool) {
    var session := GetReply(w, sc, Session(u));
    var w1 := AfterGet(w, sc);
    if session.Failed? then (w1, false)
    else
      var w2 := if session.Hit?
                then AfterDelete(AfterDelete(w1, sc, Session(u)), sc, Refresh(session.value))
                else w1;
      var access := GetReply(w2, sc, AccessSession(u));
      var w3 := AfterGet(w2, sc);
      if access.Failed? then (w3, false)
      else
        (if access.Hit?
         then AfterDelete(AfterDelete(w3, sc, AccessSession(u)), sc, Access(access.value))
         else w3,
         true)
  }

  /** The four writes of issueTokens, in order, with the rollback of each. */
  function WriteTokens(w: World, sc: Script, cfg: Config, u: string, p: TokenPair): (World, bool) {
    var w1 := AfterSet(w, sc, Session(u), p.refresh, cfg.refreshTTL);
    if !Acked(w, sc, SetCommand) then (w1, false)
    else
      var w2 := AfterSet(w1, sc, Refresh(p.refresh), u, cfg.refreshTTL);
      if !Acked(w1, sc, SetCommand) then (AfterDelete(w2, sc, Session(u)), false)
      else WriteAccess(w2, sc, cfg, u, p)
  }

  function WriteAccess(w: World, sc: Script, cfg: Config, u: string, p: TokenPair): (World, bool) {
    var w1 := AfterSet(w, sc, Access(p.access), u, cfg.accessTTL);
    if !Acked(w, sc, SetCommand) then (RollBack(w1, sc, u, p), false)
    else
      var w2 := AfterSet(w1, sc, AccessSession(u), p.access, cfg.accessTTL);
      if !Acked(w1, sc, SetCommand)
      then (AfterDelete(RollBack(w2, sc, u, p), sc, AccessSession(u)), false)
      else (w2, true)
  }

  function RollBack(w: World, sc: Script, u: string, p: TokenPair): World {
    AfterDelete(AfterDelete(AfterDelete(w, sc, Session(u)), sc, Refresh(p.refresh)), sc, Access(p.access))
  }

  function IssueTokens(w: World, sc: Script, cfg: Config, u: string, gen: Result<TokenPair, AuthError>)
    : (World, Result<TokenPair, AuthError>)
  {
    var (w1, cleared) := Invalidate(w, sc, u);
    if !cleared then (w1, Err(Internal))
    else if gen.Err? then (w1, gen)
    else
      var (w2, written) := WriteTokens(w1, sc, cfg, u, gen.value);
      (w2, if written then gen else Err(Internal))
  }

  function Finish(issued: Result<TokenPair, AuthError>, statusOk: bool): Result<TokenPair, AuthError> {
    if issued.Ok? && !statusOk then Err(Internal) else issued
  }

  /** The users table as a login finds it: `lower` is strings.ToLower, `byEmail` the answer
      to a lookup, and `fits` says whether a password fits a user's stored hash. */
  datatype Users = Users(lower: string -> string, byEmail: string -> ByEmail, fits: (string, string) -> bool)

  /** The user a login is for. */
  function Credentials(email: string, password: string, users: Users): Result<string, AuthError> {
    var normalized := TrimSpace(users.lower(email));
    if normalized == "" then Err(MissingEmail)
    else if password == "" then Err(MissingPassword)
    else
      match users.byEmail(normalized)
      case NoUser => Err(InvalidCredentials)
      case EmailLookupFailed => Err(Internal)
      case User(id) => if users.fits(id, password) then Ok(id) else Err(InvalidCredentials)
  }

  function Login(w: World, sc: Script, cfg: Config, check: Result<string, AuthError>,
                 gen: Result<TokenPair, AuthError>, statusOk: bool)
    : (World, Result<TokenPair, AuthError>)
  {
    match check
    case Err(e) => (w, Err(e))
    case Ok(u) =>
      var (w1, issued) := IssueTokens(w, sc, cfg, u, gen);
      (w1, Finish(issued, statusOk))
  }

  /** The user a refresh token may be exchanged for: the one its entry names, if that
      user's session entry names the token in turn and the user still exists. */
  function RefreshCheck(w: World, sc: Script, token: string, lookup: Lookup)
    : (World, Result<string, AuthError>)
  {
    if token == "" then (w, Err(InvalidRefreshToken))
    else
      var owner := GetReply(w, sc, Refresh(token));
      var w1 := AfterGet(w, sc);
      if owner.Failed? then (w1, Err(Internal))
      else if owner.Miss? then (w1, Err(InvalidRefreshToken))
      else
        var active := GetReply(w1, sc, Session(owner.value));
        var w2 := AfterGet(w1, sc);
        if active.Failed? then (w2, Err(Internal))
        else if active.Miss? || active.value != token then (w2, Err(InvalidRefreshToken))
        else
          (w2, match lookup
               case Found => Ok(owner.value)
               case NoRows => Err(InvalidRefreshToken)
               case LookupFailed => Err(Internal))
  }

  function RefreshTokens(w: World, sc: Script, cfg: Config, token: string, lookup: Lookup,
                         gen: Result<TokenPair, AuthError>, statusOk: bool)
    : (World, Result<TokenPair, AuthError>)
  {
    var (w1, check) := RefreshCheck(w, sc, TrimSpace(token), lookup);
    Login(w1, sc, cfg, check, gen, statusOk)
  }

  function Logout(w: World, sc: Script, user: string, statusOk: bool): (World, Result<(), AuthError>) {
    var u := TrimSpace(user);
    if u == "" then (w, Err(MissingUserID))
    else
      var (w1, cleared) := Invalidate(w, sc, u);
      (w1, if cleared && statusOk then Ok(()) else Err(Internal))
  }

  /** Validation renews: it sets both access keys again, the token key first. */
  function Validate(w: World, sc: Script, cfg: Config, accessToken: string): (World, Result<string, AuthError>) {
    var token := TrimSpace(accessToken);
    if token == "" then (w, Err(InvalidAccessToken))
    else
      var owner := GetReply(w, sc, Access(token));
      var w1 := AfterGet(w, sc);
      if owner.Failed? then (w1, Err(Internal))
      else if owner.Miss? then (w1, Err(InvalidAccessToken))
      else
        var w2 := AfterSet(w1, sc, Access(token), owner.value, cfg.accessTTL);
        if !Acked(w1, sc, SetCommand) then (w2, Err(Internal))
        else
          var w3 := AfterSet(w2, sc, AccessSession(owner.value), token, cfg.accessTTL);
          (w3, if Acked(w2, sc, SetCommand) then Ok(owner.value) else Err(Internal))
  }
}

/** The service itself: the same commands as statements on a mutable store. */
module AuthService {
  import opened Text
  import opened CacheKeys
  import opened Cache
  import opened AuthSpec

  class Service {
    const cache: Store
    const cfg: Config

    constructor (cache: Store, cfg: Config)
      ensures this.cache == cache && this.cfg == cfg
    {
      this.cache, this.cfg := cache, cfg;
    }

    method InvalidateSession(user: string) returns (ok: bool)
      requires cache.Valid()
      modifies cache
      ensures cache.Valid()
      ensures (cache.View(), ok) == AuthSpec.Invalidate(old(cache.View()), cache.script, user)
    {
      var session := cache.Get(Session(user));
      if session.Failed? {
        return false;
      }
      if session.Hit? {
        var _ := cache.Delete(Session(user));
        var _ := cache.Delete(CacheKeys.Refresh(session.value));
      }
      var access := cache.Get(AccessSession(user));
      if access.Failed? {
        return false;
      }
      if access.Hit? {
        var _ := cache.Delete(AccessSession(user));
        var _ := cache.Delete(Access(access.value));
      }
      return true;
    }

    method WriteTokens(user: string, p: TokenPair) returns (ok: bool)
      requires cache.Valid()
      modifies cache
      ensures cache.Valid()
      ensures (cache.View(), ok) == AuthSpec.WriteTokens(old(cache.View()), cache.script, cfg, user, p)
    {
      ok := cache.Set(Session(user), p.refresh, cfg.refreshTTL);
      if !ok {
        return;
      }
      ok := cache.Set(CacheKeys.Refresh(p.refresh), user, cfg.refreshTTL);
      if !ok {
        var _ := cache.Delete(Session(user));
        return;
      }
      ok := cache.Set(Access(p.access), user, cfg.accessTTL);
      if !ok {
        var _ := cache.Delete(Session(user));
        var _ := cache.Delete(CacheKeys.Refresh(p.refresh));
        var _ := cache.Delete(Access(p.access));
        return;
      }
      ok := cache.Set(AccessSession(user), p.access, cfg.accessTTL);
      if !ok {
        var _ := cache.Delete(Session(user));
        var _ := cache.Delete(CacheKeys.Refresh(p.refresh));
        var _ := cache.Delete(Access(p.access));
        var _ := cache.Delete(AccessSession(user));
      }
    }

    method IssueTokens(user: string, gen: Result<TokenPair, AuthError>) returns (r: Result<TokenPair, AuthError>)
      requires cache.Valid()
      modifies cache
      ensures cache.Valid()
      ensures (cache.View(), r) == AuthSpec.IssueTokens(old(cache.View()), cache.script, cfg, user, gen)
    {
      var cleared := InvalidateSession(user);
      if !cleared {
        return Err(Internal);
      }
      if gen.Err? {
        return gen;
      }
      var written := WriteTokens(user, gen.value);
      return if written then gen else Err(Internal);
    }

    method Login(email: string, password: string, users: Users, gen: Result<TokenPair, AuthError>, statusOk: bool)
      returns (r: Result<TokenPair, AuthError>)
      requires cache.Valid()
      modifies cache
      ensures cache.Valid()
      ensures (cache.View(), r) == AuthSpec.Login(old(cache.View()), cache.script, cfg,
                                                  Credentials(email, password, users), gen, statusOk)
    {
      var normalized := TrimSpace(users.lower(email));
      if normalized == "" {
        return Err(MissingEmail);
      }
      if password == "" {
        return Err(MissingPassword);
      }
      var user := users.byEmail(normalized);
      match user {
        case NoUser => return Err(InvalidCredentials);
        case EmailLookupFailed => return Err(Internal);
        case User(_) =>
      }
      if !users.fits(user.id, password) {
        return Err(InvalidCredentials);
      }
      r := IssueTokens(user.id, gen);
      if r.Ok? && !statusOk {
        r := Err(Internal);
      }
    }

    method Refresh(refreshToken: string, lookup: Lookup, gen: Result<TokenPair, AuthError>, statusOk: bool)
      returns (r: Result<TokenPair, AuthError>)
      requires cache.Valid()
      modifies cache
      ensures cache.Valid()
      ensures (cache.View(), r)
           == AuthSpec.RefreshTokens(old(cache.View()), cache.script, cfg, refreshToken, lookup, gen, statusOk)
    {
      var token := TrimSpace(refreshToken);
      if token == "" {
        return Err(InvalidRefreshToken);
      }
      var owner := cache.Get(CacheKeys.Refresh(token));
      if owner.Failed? {
        return Err(Internal);
      }
      if owner.Miss? {
        return Err(InvalidRefreshToken);
      }
      var active := cache.Get(Session(owner.value));
      if active.Failed? {
        return Err(Internal);
      }
      if active.Miss? || active.value != token {
        return Err(InvalidRefreshToken);
      }
      match lookup {
        case NoRows => return Err(InvalidRefreshToken);
        case LookupFailed => return Err(Internal);
        case Found =>
      }
      r := IssueTokens(owner.value, gen);
      if r.Ok? && !statusOk {
        r := Err(Internal);
      }
    }

    method Logout(userID: string, statusOk: bool) returns (r: Result<(), AuthError>)
      requires cache.Valid()
      modifies cache
      ensures cache.Valid()
      ensures (cache.View(), r) == AuthSpec.Logout(old(cache.View()), cache.script, userID, statusOk)
    {
      var user := TrimSpace(userID);
      if user == "" {
        return Err(MissingUserID);
      }
      var cleared := InvalidateSession(user);
      return if cleared && statusOk then Ok(()) else Err(Internal);
    }

    method ValidateAccessToken(accessToken: string) returns (r: Result<string, AuthError>)
      requires cache.Valid()
      modifies cache
      ensures cache.Valid()
      ensures (cache.View(), r) == AuthSpec.Validate(old(cache.View()), cache.script, cfg, accessToken)
    {
      var token := TrimSpace(accessToken);
      if token == "" {
        return Err(InvalidAccessToken);
      }
      var owner := cache.Get(Access(token));
      if owner.Failed? {
        return Err(Internal);
      }
      if owner.Miss? {
        return Err(InvalidAccessToken);
      }
      var renewed := cache.Set(Access(token), owner.value, cfg.accessTTL);
      if !renewed {
        return Err(Internal);
      }
      renewed := cache.Set(AccessSession(owner.value), token, cfg.accessTTL);
      return if renewed then Ok(owner.value) else Err(Internal);
    }
  }
}
