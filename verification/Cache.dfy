/** The Redis keys of the auth service: four families in one string key space. */
module CacheKeys {

  datatype Key =
    | Session(user: string)
    | Refresh(token: string)
    | Access(token: string)
    | AccessSession(user: string)

  const SESSION_PREFIX := "auth:session:"
  const REFRESH_PREFIX := "auth:refresh:"
  const ACCESS_PREFIX := "auth:access:"
  const ACCESS_SESSION_PREFIX := "auth:access-session:"

  function Render(k: Key): string {
    match k
    case Session(user) => SESSION_PREFIX + user
    case Refresh(token) => REFRESH_PREFIX + token
    case Access(token) => ACCESS_PREFIX + token
    case AccessSession(user) => ACCESS_SESSION_PREFIX + user
  }

  /** The builders are injective and their ranges are disjoint, whatever the
      ids and tokens contain; position 11 separates access from access-session. */
  lemma RenderInjective(k: Key, l: Key)
    requires Render(k) == Render(l)
    ensures k == l
  {
    var s, t := Render(k), Render(l);
    assert s[5] == t[5];
    assert k.Access? || k.AccessSession? ==> s[11] == (if k.Access? then ':' else '-');
    assert l.Access? || l.AccessSession? ==> t[11] == (if l.Access? then ':' else '-');
    match k
    case Session(user) => assert user == s[|SESSION_PREFIX|..];
    case Refresh(token) => assert token == s[|REFRESH_PREFIX|..];
    case Access(token) => assert token == s[|ACCESS_PREFIX|..];
    case AccessSession(user) => assert user == s[|ACCESS_SESSION_PREFIX|..];
  }
}

/** An expiring key-value store that runs one command at a time. Before each
    command the clock may advance, and each command may fail, with or without
    having taken effect; a script supplies both. */
module Cache {
  import opened CacheKeys

  datatype Entry = Entry(value: string, expires: int)

  datatype Fault =
    | NoFault
    | Dropped   // reported as failed, and had no effect
    | Applied   // reported as failed, but took effect

  datatype Turn = Turn(delay: nat, fault: Fault)

  datatype Command = GetCommand | SetCommand | DeleteCommand

  type Script = (nat, Command) -> Turn

  datatype Reply = Hit(value: string) | Miss | Failed

  /** `turn` counts the commands run so far. */
  datatype World = World(kv: map<Key, Entry>, now: int, turn: nat)

  predicate Live(w: World, k: Key) {
    k in w.kv && w.now < w.kv[k].expires
  }

  predicate LiveAs(w: World, k: Key, value: string) {
    Live(w, k) && w.kv[k].value == value
  }

  function Advance(w: World, sc: Script, c: Command): World {
    World(w.kv, w.now + sc(w.turn, c).delay, w.turn + 1)
  }

  predicate Acked(w: World, sc: Script, c: Command) {
    sc(w.turn, c).fault == NoFault
  }

  function AfterGet(w: World, sc: Script): World {
    Advance(w, sc, GetCommand)
  }

  function GetReply(w: World, sc: Script, k: Key): Reply {
    if !Acked(w, sc, GetCommand) then Failed
    else if Live(AfterGet(w, sc), k) then Hit(w.kv[k].value)
    else Miss
  }

  function AfterSet(w: World, sc: Script, k: Key, value: string, ttl: int): World {
    var v := Advance(w, sc, SetCommand);
    if sc(w.turn, SetCommand).fault == Dropped then v
    else v.(kv := v.kv[k := Entry(value, v.now + ttl)])
  }

  function AfterDelete(w: World, sc: Script, k: Key): World {
    var v := Advance(w, sc, DeleteCommand);
    if sc(w.turn, DeleteCommand).fault == Dropped then v
    else v.(kv := v.kv - {k})
  }

  /** The string-keyed map holds exactly the entries of the typed one. */
  ghost predicate Matches(data: map<string, Entry>, kv: map<Key, Entry>) {
    && (forall k :: k in kv ==> Render(k) in data && data[Render(k)] == kv[k])
    && (forall k :: Render(k) in data ==> k in kv)
  }

  lemma SetMatches(data: map<string, Entry>, kv: map<Key, Entry>, k: Key, entry: Entry)
    requires Matches(data, kv)
    ensures Matches(data[Render(k) := entry], kv[k := entry])
  {
    KeyIsUnique(k);
  }

  lemma DeleteMatches(data: map<string, Entry>, kv: map<Key, Entry>, k: Key)
    requires Matches(data, kv)
    ensures Matches(data - {Render(k)}, kv - {k})
  {
    KeyIsUnique(k);
  }

  /** The store as Redis holds it, under rendered keys. The ghost field is its
      view by typed key; injectivity of Render keeps the two in step. */
  class Store {
    var data: map<string, Entry>
    var now: int
    var turn: nat
    const script: Script
    ghost var kv: map<Key, Entry>

    ghost predicate Valid()
      reads this
    {
      Matches(data, kv)
    }

    ghost function View(): World
      reads this
    {
      World(kv, now, turn)
    }

    constructor (script: Script)
      ensures Valid()
      ensures View() == World(map[], 0, 0) && this.script == script
    {
      data, now, turn, kv := map[], 0, 0, map[];
      this.script := script;
    }

    method Get(k: Key) returns (reply: Reply)
      requires Valid()
      modifies this
      ensures Valid()
      ensures reply == GetReply(old(View()), script, k)
      ensures View() == AfterGet(old(View()), script)
    {
      var t := script(turn, GetCommand);
      now, turn := now + t.delay, turn + 1;
      if t.fault != NoFault {
        reply := Failed;
      } else if Render(k) in data && now < data[Render(k)].expires {
        reply := Hit(data[Render(k)].value);
      } else {
        reply := Miss;
      }
    }

    method Set(k: Key, value: string, ttl: int) returns (ok: bool)
      requires Valid()
      modifies this
      ensures Valid()
      ensures ok == Acked(old(View()), script, SetCommand)
      ensures View() == AfterSet(old(View()), script, k, value, ttl)
    {
      var t := script(turn, SetCommand);
      now, turn := now + t.delay, turn + 1;
      if t.fault != Dropped {
        SetMatches(data, kv, k, Entry(value, now + ttl));
        data := data[Render(k) := Entry(value, now + ttl)];
        kv := kv[k := Entry(value, now + ttl)];
      }
      ok := t.fault == NoFault;
    }

    method Delete(k: Key) returns (ok: bool)
      requires Valid()
      modifies this
      ensures Valid()
      ensures ok == Acked(old(View()), script, DeleteCommand)
      ensures View() == AfterDelete(old(View()), script, k)
    {
      var t := script(turn, DeleteCommand);
      now, turn := now + t.delay, turn + 1;
      if t.fault != Dropped {
        DeleteMatches(data, kv, k);
        data := data - {Render(k)};
        kv := kv - {k};
      }
      ok := t.fault == NoFault;
    }
  }

  lemma KeyIsUnique(k: Key)
    ensures forall l :: Render(l) == Render(k) ==> l == k
  {
    forall l | Render(l) == Render(k) ensures l == k {
      RenderInjective(l, k);
    }
  }
}
