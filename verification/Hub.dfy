/** The websocket hub: three indexes of one client set, bounded send queues, and
    eviction of slow consumers. Go would panic on a send to, or a close of, a
    closed channel; here that sets `panicked`, after which nothing happens. */
module Hub {

  /** `id` is the identity of the client object. */
  datatype Client = Client(id: nat, user: string, rooms: seq<string>)

  datatype Exclude = Nobody | Only(client: Client)

  datatype Broadcast = Broadcast(room: string, data: string, exclude: Exclude)

  /** What a queue holds: the n-th broadcast of the hub, or a message to the user. */
  datatype Item = FromRoom(n: nat, data: string) | Direct(data: string)

  /** A send channel by its history: all items ever queued, how many were taken. */
  datatype Channel = Channel(sent: seq<Item>, taken: nat, closed: bool)

  const CAPACITY: nat := 256

  const OPEN := Channel([], 0, false)

  type Index = map<string, set<Client>>

  /** How often each client occurs. */
  type Count = map<Client, nat>

  function CountOf(m: Count, c: Client): nat {
    if c in m then m[c] else 0
  }

  function OneMore(m: Count, c: Client): Count {
    m[c := CountOf(m, c) + 1]
  }

  function OneLess(m: Count, c: Client): Count {
    if CountOf(m, c) == 0 then m else m[c := m[c] - 1]
  }

  function OneMoreEach(m: Count, cs: set<Client>): Count {
    map c | c in m.Keys + cs :: if c in cs then CountOf(m, c) + 1 else m[c]
  }

  /** The hub's fields, the pending `go h.Unregister(client)` calls, and three
      histories: broadcasts handled, the length of that log when each client
      registered, and the unregistrations handled. */
  datatype State = State(
    clients: set<Client>, rooms: Index, users: Index,
    chans: map<Client, Channel>, pending: Count,
    stopped: bool, panicked: bool,
    log: seq<Broadcast>, since: map<Client, nat>, gone: Count)

  const NEW := State({}, map[], map[], map[], map[], false, false, [], map[], map[])

  function ChannelIn(chans: map<Client, Channel>, c: Client): Channel {
    if c in chans then chans[c] else OPEN
  }

  function ChannelOf(h: State, c: Client): Channel {
    ChannelIn(h.chans, c)
  }

  function Shut(ch: Channel): Channel {
    ch.(closed := true)
  }

  predicate Full(ch: Channel) {
    CAPACITY <= |ch.sent| - ch.taken
  }

  function Push(ch: Channel, item: Item): Channel {
    if Full(ch) then ch else ch.(sent := ch.sent + [item])
  }

  // ----- the indexes -----

  /** Under which keys a client is filed: its user, or its rooms (repeats allowed). */
  function KeysOf(c: Client, byUser: bool): seq<string> {
    if byUser then [c.user] else c.rooms
  }

  predicate FiledUnder(c: Client, byUser: bool, key: string) {
    key in KeysOf(c, byUser)
  }

  function ClientsAt(clients: set<Client>, byUser: bool, key: string): set<Client> {
    set c | c in clients && FiledUnder(c, byUser, key)
  }

  function KeysIn(clients: set<Client>, byUser: bool): set<string> {
    set c, key | c in clients && key in KeysOf(c, byUser) :: key
  }

  /** The exact index of a client set: no key without a client. */
  function IndexOf(clients: set<Client>, byUser: bool): Index {
    map key | key in KeysIn(clients, byUser) :: ClientsAt(clients, byUser, key)
  }

  function At(index: Index, key: string): set<Client> {
    if key in index then index[key] else {}
  }

  function KeySet(keys: seq<string>): set<string> {
    set k | k in keys
  }

  function Filed(index: Index, c: Client, keys: seq<string>): Index {
    map k | k in index.Keys + KeySet(keys) :: if k in keys then At(index, k) + {c} else At(index, k)
  }

  function Unfiled(index: Index, c: Client, keys: seq<string>): Index {
    map k | k in index && !(k in keys && index[k] - {c} == {})
      :: if k in keys then index[k] - {c} else index[k]
  }

  function FileOne(index: Index, c: Client, key: string): Index {
    index[key := At(index, key) + {c}]
  }

  function UnfileOne(index: Index, c: Client, key: string): Index {
    if key !in index then index
    else if index[key] - {c} == {} then index - {key}
    else index[key := index[key] - {c}]
  }

  lemma NothingFiled(index: Index, c: Client)
    ensures Filed(index, c, []) == index && Unfiled(index, c, []) == index
  {
    assert KeySet([]) == {};
    assert Filed(index, c, []).Keys == index.Keys && Unfiled(index, c, []).Keys == index.Keys;
  }

  /** Filing under one more key, repeated or not. */
  lemma FiledStep(index: Index, c: Client, keys: seq<string>, key: string)
    ensures Filed(index, c, keys + [key]) == FileOne(Filed(index, c, keys), c, key)
  {
    var now, later := FileOne(Filed(index, c, keys), c, key), Filed(index, c, keys + [key]);
    assert KeySet(keys + [key]) == KeySet(keys) + {key};
    assert now.Keys == later.Keys;
    forall k | k in now ensures now[k] == later[k] {
      assert k in keys + [key] <==> k in keys || k == key;
    }
  }

  lemma UnfiledStep(index: Index, c: Client, keys: seq<string>, key: string)
    ensures Unfiled(index, c, keys + [key]) == UnfileOne(Unfiled(index, c, keys), c, key)
  {
    var before := Unfiled(index, c, keys);
    var now, later := UnfileOne(before, c, key), Unfiled(index, c, keys + [key]);
    if key in before {
      assert before[key] - {c} == index[key] - {c};
    }
    forall k
      ensures k in now <==> k in later
      ensures k in now ==> now[k] == later[k]
    {
      if k == key && k in now {
        assert now[k] == index[k] - {c};
      }
    }
  }

  lemma KeysInIff(clients: set<Client>, byUser: bool, key: string)
    ensures key in KeysIn(clients, byUser) <==> ClientsAt(clients, byUser, key) != {}
  {
    if key in KeysIn(clients, byUser) {
      var c :| c in clients && key in KeysOf(c, byUser);
      assert c in ClientsAt(clients, byUser, key);
    }
  }

  lemma FiledIsExact(clients: set<Client>, c: Client, byUser: bool)
    ensures Filed(IndexOf(clients, byUser), c, KeysOf(c, byUser)) == IndexOf(clients + {c}, byUser)
  {
    var keys := KeysOf(c, byUser);
    var now, later := Filed(IndexOf(clients, byUser), c, keys), IndexOf(clients + {c}, byUser);
    forall key
      ensures key in now <==> key in later
      ensures key in now ==> now[key] == later[key]
    {
      KeysInIff(clients, byUser, key);
      KeysInIff(clients + {c}, byUser, key);
      assert ClientsAt(clients + {c}, byUser, key)
          == ClientsAt(clients, byUser, key) + (if key in keys then {c} else {});
    }
  }

  lemma UnfiledIsExact(clients: set<Client>, c: Client, byUser: bool)
    ensures Unfiled(IndexOf(clients, byUser), c, KeysOf(c, byUser)) == IndexOf(clients - {c}, byUser)
  {
    var keys := KeysOf(c, byUser);
    var now, later := Unfiled(IndexOf(clients, byUser), c, keys), IndexOf(clients - {c}, byUser);
    forall key
      ensures key in now <==> key in later
      ensures key in now ==> now[key] == later[key]
    {
      KeysInIff(clients, byUser, key);
      KeysInIff(clients - {c}, byUser, key);
      assert ClientsAt(clients - {c}, byUser, key)
          == ClientsAt(clients, byUser, key) - (if key in keys then {c} else {});
    }
  }

  // ----- the steps -----

  datatype Event =
    | Register(client: Client)
    | Unregister(client: Client, evicted: bool)   // evicted: one of the pending calls
    | Send(msg: Broadcast)
    | SendToUser(user: string, data: string)
    | Take(client: Client, count: nat)            // the client's write pump receives
    | Stop                                        // the context is done

  function AddClient(h: State, c: Client): State {
    h.(clients := h.clients + {c},
       users := Filed(h.users, c, [c.user]),
       rooms := Filed(h.rooms, c, c.rooms),
       chans := h.chans[c := ChannelOf(h, c)],
       since := h.since[c := |h.log|])
  }

  function RemoveClient(h: State, c: Client): State {
    CloseSend(h.(clients := h.clients - {c},
                 users := Unfiled(h.users, c, [c.user]),
                 rooms := Unfiled(h.rooms, c, c.rooms)), c)
  }

  /** close(client.Send), without a membership test. */
  function CloseSend(h: State, c: Client): State {
    h.(chans := h.chans[c := Shut(ChannelOf(h, c))],
       panicked := h.panicked || ChannelOf(h, c).closed,
       gone := OneMore(h.gone, c))
  }

  /** One pending call has handed its client to the loop. */
  function Handed(h: State, c: Client): State {
    h.(pending := OneLess(h.pending, c))
  }

  predicate Excluded(msg: Broadcast, c: Client) {
    msg.exclude == Only(c)
  }

  function TargetsIn(rooms: Index, msg: Broadcast): set<Client> {
    if msg.room in rooms then set c | c in rooms[msg.room] && !Excluded(msg, c) else {}
  }

  function Targets(h: State, msg: Broadcast): set<Client> {
    TargetsIn(h.rooms, msg)
  }

  predicate AnyClosed(chans: map<Client, Channel>, cs: set<Client>) {
    exists c :: c in cs && ChannelIn(chans, c).closed
  }

  function FullAmong(chans: map<Client, Channel>, cs: set<Client>): set<Client> {
    set c | c in cs && Full(ChannelIn(chans, c))
  }

  /** Every channel of cs gets the item, unless it is full. */
  function PushAll(chans: map<Client, Channel>, cs: set<Client>, item: Item): map<Client, Channel> {
    map c | c in chans.Keys + cs :: if c in cs then Push(ChannelIn(chans, c), item) else chans[c]
  }

  function SendToRoom(h: State, msg: Broadcast): State {
    var targets := Targets(h, msg);
    if AnyClosed(h.chans, targets) then h.(panicked := true)
    else
      h.(chans := PushAll(h.chans, targets, FromRoom(|h.log|, msg.data)),
         pending := OneMoreEach(h.pending, FullAmong(h.chans, targets)),
         log := h.log + [msg])
  }

  /** Like PushAll, but a full channel is closed. */
  function PushOrClose(chans: map<Client, Channel>, cs: set<Client>, item: Item): map<Client, Channel> {
    map c | c in chans.Keys + cs ::
      if c !in cs then chans[c]
      else if Full(ChannelIn(chans, c)) then Shut(ChannelIn(chans, c))
      else Push(ChannelIn(chans, c), item)
  }

  /** A client with a full queue is dropped from the user's set only; the set stays. */
  function ToUser(h: State, user: string, data: string): State {
    if user !in h.users then h
    else if AnyClosed(h.chans, h.users[user]) then h.(panicked := true)
    else
      h.(chans := PushOrClose(h.chans, h.users[user], Direct(data)),
         users := h.users[user := h.users[user] - FullAmong(h.chans, h.users[user])])
  }

  function CloseAll(chans: map<Client, Channel>, cs: set<Client>): map<Client, Channel> {
    map c | c in chans.Keys + cs :: if c in cs then Shut(ChannelIn(chans, c)) else chans[c]
  }

  function Shutdown(h: State): State {
    if AnyClosed(h.chans, h.clients) then h.(panicked := true)
    else h.(chans := CloseAll(h.chans, h.clients), clients := {}, rooms := map[], stopped := true)
  }

  function Taken(ch: Channel, count: nat): Channel {
    ch.(taken := if |ch.sent| <= ch.taken + count then |ch.sent| else ch.taken + count)
  }

  function TakeItems(h: State, c: Client, count: nat): State {
    if c in h.chans then h.(chans := h.chans[c := Taken(h.chans[c], count)]) else h
  }

  /** After Stop the loop is gone: only SendToUser and the write pumps still run. */
  function Step(h: State, e: Event): State {
    if h.panicked then h
    else match e
      case Register(c) => if h.stopped then h else AddClient(h, c)
      case Unregister(c, evicted) => if h.stopped then h else RemoveClient(if evicted then Handed(h, c) else h, c)
      case Send(msg) => if h.stopped then h else SendToRoom(h, msg)
      case SendToUser(user, data) => ToUser(h, user, data)
      case Take(c, count) => TakeItems(h, c, count)
      case Stop => if h.stopped then h else Shutdown(h)
  }

  function Run(h: State, es: seq<Event>): State
    decreases |es|
  {
    if es == [] then h else Run(Step(h, es[0]), es[1..])
  }

  lemma {:induction false} RunSnoc(h: State, es: seq<Event>, e: Event)
    ensures Run(h, es + [e]) == Step(Run(h, es), e)
    decreases |es|
  {
    if es == [] {
      assert ([] + [e])[1..] == [];
      assert Run(h, [e]) == Run(Step(h, e), []);
    } else {
      assert (es + [e])[1..] == es[1..] + [e];
      RunSnoc(Step(h, es[0]), es[1..], e);
    }
  }

  lemma PushAllStep(chans: map<Client, Channel>, cs: set<Client>, c: Client, item: Item)
    requires c !in cs
    ensures PushAll(chans, cs + {c}, item) == PushAll(chans, cs, item)[c := Push(ChannelIn(chans, c), item)]
  {
    assert PushAll(chans, cs + {c}, item).Keys == PushAll(chans, cs, item).Keys + {c};
  }

  lemma FullAmongStep(chans: map<Client, Channel>, cs: set<Client>, c: Client)
    requires c !in cs
    ensures FullAmong(chans, cs + {c})
         == FullAmong(chans, cs) + (if Full(ChannelIn(chans, c)) then {c} else {})
  {
  }

  lemma OneMoreEachStep(m: Count, cs: set<Client>, c: Client)
    requires c !in cs
    ensures OneMoreEach(m, cs + {c}) == OneMore(OneMoreEach(m, cs), c)
  {
    assert OneMoreEach(m, cs + {c}).Keys == OneMore(OneMoreEach(m, cs), c).Keys;
  }

  lemma PushOrCloseStep(chans: map<Client, Channel>, cs: set<Client>, c: Client, item: Item)
    requires c !in cs
    ensures var ch := ChannelIn(chans, c);
            PushOrClose(chans, cs + {c}, item)
            == PushOrClose(chans, cs, item)[c := if Full(ch) then Shut(ch) else Push(ch, item)]
  {
    assert PushOrClose(chans, cs + {c}, item).Keys == PushOrClose(chans, cs, item).Keys + {c};
  }

  lemma CloseAllStep(chans: map<Client, Channel>, cs: set<Client>, c: Client)
    requires c !in cs
    ensures CloseAll(chans, cs + {c}) == CloseAll(chans, cs)[c := Shut(ChannelIn(chans, c))]
  {
    assert CloseAll(chans, cs + {c}).Keys == CloseAll(chans, cs).Keys + {c};
  }

  lemma NoneSlow(chans: map<Client, Channel>, m: Count)
    ensures OneMoreEach(m, FullAmong(chans, {})) == m
  {
    assert FullAmong(chans, {}) == {};
    assert OneMoreEach(m, {}).Keys == m.Keys;
  }

  lemma NoneYet(chans: map<Client, Channel>, item: Item)
    ensures PushAll(chans, {}, item) == chans
    ensures PushOrClose(chans, {}, item) == chans
    ensures CloseAll(chans, {}) == chans
  {
  }
}
