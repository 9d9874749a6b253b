/** Safety of hub runs, and what each client receives. */
module HubTheorems {
  import opened Hub

  predicate Pending(h: State, c: Client) {
    0 < CountOf(h.pending, c)
  }

  /** What the code around the hub must see to: a client object is registered
      once, before anything else happens to it; messages to a user never meet a
      full queue and stop with the hub; evictions come from the pending calls. */
  predicate Orderly(h: State, e: Event) {
    match e
    case Register(c) => h.stopped || c !in h.chans
    case Unregister(c, evicted) => evicted ==> Pending(h, c)
    case SendToUser(_, _) => !h.stopped && NoOverflow(h, e)
    case _ => true
  }

  /** A message to a user meets no full queue. */
  predicate NoOverflow(h: State, e: Event) {
    e.SendToUser? && e.user in h.users ==> FullAmong(h.chans, h.users[e.user]) == {}
  }

  predicate NoOverflowRun(h: State, es: seq<Event>)
    decreases |es|
  {
    es == [] || (NoOverflow(h, es[0]) && NoOverflowRun(Step(h, es[0]), es[1..]))
  }

  predicate OrderlyRun(h: State, es: seq<Event>)
    decreases |es|
  {
    es == [] || (Orderly(h, es[0]) && OrderlyRun(Step(h, es[0]), es[1..]))
  }

  // ----- the indexes, in every run -----

  /** rooms and users are the exact indexes of the client set. */
  predicate RoomsExact(h: State) {
    h.rooms == IndexOf(h.clients, false)
  }

  predicate UsersExact(h: State) {
    h.users == IndexOf(h.clients, true)
  }

  lemma RegisterKeeps(h: State, c: Client)
    ensures RoomsExact(h) ==> RoomsExact(AddClient(h, c))
    ensures UsersExact(h) ==> UsersExact(AddClient(h, c))
  {
    FiledIsExact(h.clients, c, false);
    FiledIsExact(h.clients, c, true);
  }

  lemma UnregisterKeeps(h: State, c: Client)
    ensures RoomsExact(h) ==> RoomsExact(RemoveClient(h, c))
    ensures UsersExact(h) ==> UsersExact(RemoveClient(h, c))
  {
    UnfiledIsExact(h.clients, c, false);
    UnfiledIsExact(h.clients, c, true);
  }

  lemma SendKeeps(h: State, msg: Broadcast)
    ensures SendToRoom(h, msg).clients == h.clients
    ensures SendToRoom(h, msg).rooms == h.rooms
    ensures SendToRoom(h, msg).users == h.users
  {
    var targets := Targets(h, msg);
    if !AnyClosed(h.chans, targets) {
      var chans, pending := PushAll(h.chans, targets, FromRoom(|h.log|, msg.data)),
                            OneMoreEach(h.pending, FullAmong(h.chans, targets));
      assert SendToRoom(h, msg) == h.(chans := chans, pending := pending, log := h.log + [msg]);
    }
  }

  lemma ToUserKeeps(h: State, user: string, data: string)
    ensures var h' := ToUser(h, user, data); h'.clients == h.clients && h'.rooms == h.rooms
    ensures NoOverflow(h, SendToUser(user, data)) ==> ToUser(h, user, data).users == h.users
  {
    if user in h.users && NoOverflow(h, SendToUser(user, data)) {
      assert h.users[user] - FullAmong(h.chans, h.users[user]) == h.users[user];
      assert h.users[user := h.users[user]] == h.users;
    }
  }

  lemma StepKeepsRooms(h: State, e: Event)
    requires RoomsExact(h)
    ensures RoomsExact(Step(h, e))
  {
    if !h.panicked {
      match e
      case Register(c) => if !h.stopped { RegisterKeeps(h, c); }
      case Unregister(c, evicted) =>
        if !h.stopped {
          UnregisterKeeps(if evicted then Handed(h, c) else h, c);
        }
      case Send(msg) => if !h.stopped { SendKeeps(h, msg); }
      case SendToUser(user, data) => ToUserKeeps(h, user, data);
      case Take(c, count) => assert RoomsExact(TakeItems(h, c, count));
      case Stop => if !h.stopped { assert RoomsExact(Shutdown(h)); }
    }
  }

  lemma StepKeepsUsers(h: State, e: Event)
    requires UsersExact(h) && NoOverflow(h, e) && !Step(h, e).stopped
    ensures UsersExact(Step(h, e))
  {
    if !h.panicked && !h.stopped {
      match e
      case Register(c) => RegisterKeeps(h, c);
      case Unregister(c, evicted) => UnregisterKeeps(if evicted then Handed(h, c) else h, c);
      case Send(msg) => SendKeeps(h, msg);
      case SendToUser(user, data) => ToUserKeeps(h, user, data);
      case Take(c, count) => assert UsersExact(TakeItems(h, c, count));
      case Stop => assert Shutdown(h).panicked;
    }
  }

  lemma {:induction false} StoppedForGood(h: State, es: seq<Event>)
    requires h.stopped
    ensures Run(h, es).stopped
    decreases |es|
  {
    if es != [] {
      StoppedForGood(Step(h, es[0]), es[1..]);
    }
  }

  lemma {:induction false} RunKeepsIndexes(h: State, es: seq<Event>)
    requires RoomsExact(h)
    ensures RoomsExact(Run(h, es))
    ensures UsersExact(h) && NoOverflowRun(h, es) && !Run(h, es).stopped ==> UsersExact(Run(h, es))
    decreases |es|
  {
    if es != [] {
      var h' := Step(h, es[0]);
      StepKeepsRooms(h, es[0]);
      if h'.stopped {
        StoppedForGood(h', es[1..]);
      } else if UsersExact(h) && NoOverflow(h, es[0]) {
        StepKeepsUsers(h, es[0]);
      }
      RunKeepsIndexes(h', es[1..]);
    }
  }

  /** In every run, orderly or not, rooms[r] is exactly the clients with r among their
      rooms, repeats or not, and no empty set is stored. The same holds of users
      until a message overflows a user's queue or the hub stops. */
  lemma IndexesAreExact(es: seq<Event>, key: string)
    ensures var h := Run(NEW, es);
            && (key in h.rooms <==> exists c :: c in h.clients && key in c.rooms)
            && (key in h.rooms ==> h.rooms[key] == set c | c in h.clients && key in c.rooms)
    ensures var h := Run(NEW, es);
            NoOverflowRun(NEW, es) && !h.stopped ==>
              && (key in h.users <==> exists c :: c in h.clients && key == c.user)
              && (key in h.users ==> h.users[key] == set c | c in h.clients && key == c.user)
  {
    NewIsSound();
    RunKeepsIndexes(NEW, es);
    var clients := Run(NEW, es).clients;
    assert forall c, byUser :: c in ClientsAt(clients, byUser, key) <==> c in clients && FiledUnder(c, byUser, key);
    KeysInIff(clients, false, key);
    KeysInIff(clients, true, key);
  }

  // ----- open channels and panics -----

  /** The clients are those registered whose channel is open; the closed channels
      are those of clients unregistered before. */
  ghost predicate OpenExactly(clients: set<Client>, chans: map<Client, Channel>, since: map<Client, nat>, gone: Count) {
    && (forall c :: c in clients <==> c in since && c in chans && !chans[c].closed)
    && (forall c :: c in since ==> c in chans)
    && (forall c :: c in chans && !chans[c].closed ==> c in since)
    && (forall c :: c in chans ==> (chans[c].closed <==> c in gone))
    && (forall c :: c in gone ==> c in chans && 1 <= gone[c])
  }

  /** The three indexes describe one set: the registered clients whose channel is open. */
  ghost predicate Exact(h: State) {
    RoomsExact(h) && UsersExact(h) && OpenExactly(h.clients, h.chans, h.since, h.gone)
  }

  ghost predicate Twice(m: Count) {
    exists c :: c in m && m[c] > 1
  }

  ghost predicate Sound(h: State) {
    (h.panicked <==> Twice(h.gone)) && (!h.panicked && !h.stopped ==> Exact(h))
  }

  lemma IndexHolds(h: State, key: string, byUser: bool)
    requires Exact(h)
    ensures var index := if byUser then h.users else h.rooms;
            key in index ==> index[key] == ClientsAt(h.clients, byUser, key) && index[key] != {}
    ensures var index := if byUser then h.users else h.rooms;
            key !in index ==> ClientsAt(h.clients, byUser, key) == {}
  {
    KeysInIff(h.clients, byUser, key);
  }

  lemma ClientsAreOpen(h: State, cs: set<Client>)
    requires OpenExactly(h.clients, h.chans, h.since, h.gone) && cs <= h.clients
    ensures !AnyClosed(h.chans, cs) && cs <= h.chans.Keys
  {
  }

  lemma TargetsAreClients(h: State, msg: Broadcast)
    requires RoomsExact(h)
    ensures Targets(h, msg) == set c | c in h.clients && msg.room in c.rooms && !Excluded(msg, c)
  {
    KeysInIff(h.clients, false, msg.room);
    if msg.room !in h.rooms {
      forall c | c in h.clients ensures msg.room !in c.rooms {
        assert c !in ClientsAt(h.clients, false, msg.room);
      }
    }
  }

  lemma UsersAreClients(h: State, user: string)
    requires Exact(h) && user in h.users
    ensures h.users[user] == set c | c in h.clients && c.user == user
  {
    IndexHolds(h, user, true);
  }

  lemma RegisterSound(h: State, c: Client)
    requires Sound(h) && !h.panicked && !h.stopped && c !in h.chans
    ensures Sound(AddClient(h, c))
  {
    FiledIsExact(h.clients, c, false);
    FiledIsExact(h.clients, c, true);
    var h' := AddClient(h, c);
    assert OpenExactly(h'.clients, h'.chans, h'.since, h'.gone);
  }

  lemma UnregisterSound(h: State, c: Client)
    requires Sound(h) && !h.panicked && !h.stopped
    ensures Sound(RemoveClient(h, c))
  {
    UnfiledIsExact(h.clients, c, false);
    UnfiledIsExact(h.clients, c, true);
    var h' := RemoveClient(h, c);
    assert h'.panicked <==> c in h.gone;
    if h'.panicked {
      assert h'.gone[c] > 1;
    } else {
      assert OpenExactly(h'.clients, h'.chans, h'.since, h'.gone);
    }
  }

  /** Of the channels, only which are closed matters. */
  lemma SameClosedSound(h: State, chans: map<Client, Channel>)
    requires Sound(h) && chans.Keys == h.chans.Keys
    requires forall c :: c in chans ==> chans[c].closed == h.chans[c].closed
    ensures Sound(h.(chans := chans))
  {
    if !h.panicked && !h.stopped {
      assert OpenExactly(h.clients, chans, h.since, h.gone);
    }
  }

  lemma PushKeepsClosed(chans: map<Client, Channel>, cs: set<Client>, item: Item)
    requires cs <= chans.Keys
    ensures PushAll(chans, cs, item).Keys == chans.Keys
    ensures forall c :: c in chans ==> PushAll(chans, cs, item)[c].closed == chans[c].closed
    ensures FullAmong(chans, cs) == {} ==> PushOrClose(chans, cs, item) == PushAll(chans, cs, item)
  {
    if FullAmong(chans, cs) == {} {
      forall c | c in cs ensures !Full(ChannelIn(chans, c)) {
        assert c !in FullAmong(chans, cs);
      }
    }
  }

  lemma BroadcastSound(h: State, msg: Broadcast)
    requires Sound(h) && !h.panicked && !h.stopped
    ensures Sound(SendToRoom(h, msg)) && !SendToRoom(h, msg).panicked
  {
    TargetsAreClients(h, msg);
    ClientsAreOpen(h, Targets(h, msg));
    PushKeepsClosed(h.chans, Targets(h, msg), FromRoom(|h.log|, msg.data));
    SameClosedSound(h, PushAll(h.chans, Targets(h, msg), FromRoom(|h.log|, msg.data)));
  }

  lemma ToUserSound(h: State, user: string, data: string)
    requires Sound(h) && !h.panicked && !h.stopped
    requires user in h.users ==> FullAmong(h.chans, h.users[user]) == {}
    ensures Sound(ToUser(h, user, data)) && !ToUser(h, user, data).panicked
  {
    if user in h.users {
      var cs := h.users[user];
      UsersAreClients(h, user);
      ClientsAreOpen(h, cs);
      PushKeepsClosed(h.chans, cs, Direct(data));
      SameClosedSound(h, PushAll(h.chans, cs, Direct(data)));
      assert cs - FullAmong(h.chans, cs) == cs && h.users[user := cs] == h.users;
    }
  }

  lemma TakeSound(h: State, c: Client, count: nat)
    requires Sound(h)
    ensures Sound(TakeItems(h, c, count))
  {
    if c in h.chans {
      SameClosedSound(h, h.chans[c := Taken(h.chans[c], count)]);
    }
  }

  lemma StopSound(h: State)
    requires Sound(h) && !h.panicked && !h.stopped
    ensures Sound(Shutdown(h)) && !Shutdown(h).panicked
  {
    ClientsAreOpen(h, h.clients);
  }

  lemma StepSound(h: State, e: Event)
    requires Sound(h) && Orderly(h, e)
    ensures Sound(Step(h, e))
  {
    if !h.panicked {
      match e
      case Register(c) => if !h.stopped { RegisterSound(h, c); }
      case Unregister(c, evicted) =>
        if !h.stopped {
          UnregisterSound(if evicted then Handed(h, c) else h, c);
        }
      case Send(msg) => if !h.stopped { BroadcastSound(h, msg); }
      case SendToUser(user, data) => ToUserSound(h, user, data);
      case Take(c, count) => TakeSound(h, c, count);
      case Stop => if !h.stopped { StopSound(h); }
    }
  }

  lemma {:induction false} RunSound(h: State, es: seq<Event>)
    requires Sound(h) && OrderlyRun(h, es)
    ensures Sound(Run(h, es))
    decreases |es|
  {
    if es != [] {
      StepSound(h, es[0]);
      RunSound(Step(h, es[0]), es[1..]);
    }
  }

  lemma NewIsSound()
    ensures Sound(NEW)
  {
    assert NEW.rooms == IndexOf({}, false) && NEW.users == IndexOf({}, true);
  }

  /** How often c is unregistered before the loop stops. */
  function Unregistrations(es: seq<Event>, c: Client): nat
    decreases |es|
  {
    if es == [] || es[0].Stop? then 0
    else (if es[0].Unregister? && es[0].client == c then 1 else 0) + Unregistrations(es[1..], c)
  }

  lemma StepGone(h: State, e: Event, c: Client)
    requires !h.panicked && !h.stopped && !e.Stop?
    ensures !Step(h, e).stopped
    ensures CountOf(Step(h, e).gone, c)
         == CountOf(h.gone, c) + (if e.Unregister? && e.client == c then 1 else 0)
  {
  }

  lemma {:induction false} GoneCounts(h: State, es: seq<Event>, c: Client)
    requires !h.stopped
    ensures CountOf(Run(h, es).gone, c) <= CountOf(h.gone, c) + Unregistrations(es, c)
    ensures !Run(h, es).panicked ==>
              CountOf(Run(h, es).gone, c) == CountOf(h.gone, c) + Unregistrations(es, c)
    decreases |es|
  {
    if h.panicked || (es != [] && es[0].Stop?) {
      GoneIsFinal(h, es);
    } else if es != [] {
      StepGone(h, es[0], c);
      GoneCounts(Step(h, es[0]), es[1..], c);
    }
  }

  lemma {:induction false} GoneIsFinal(h: State, es: seq<Event>)
    requires h.panicked || h.stopped || (es != [] && es[0].Stop?)
    ensures Run(h, es).gone == h.gone
    ensures h.panicked ==> Run(h, es).panicked
    decreases |es|
  {
    if es != [] {
      GoneIsFinal(Step(h, es[0]), es[1..]);
    }
  }

  /** An orderly run sends on or closes a closed channel exactly when some client
      is unregistered twice; short of that, the clients are those registered
      whose queue is open, and rooms and users are their exact indexes. */
  lemma PanicsIffUnregisteredTwice(es: seq<Event>)
    requires OrderlyRun(NEW, es)
    ensures Run(NEW, es).panicked <==> exists c :: Unregistrations(es, c) > 1
    ensures !Run(NEW, es).panicked && !Run(NEW, es).stopped ==> Exact(Run(NEW, es))
  {
    NewIsSound();
    RunSound(NEW, es);
    var h := Run(NEW, es);
    if h.panicked {
      var c :| c in h.gone && h.gone[c] > 1;
      GoneCounts(NEW, es, c);
    } else if c :| Unregistrations(es, c) > 1 {
      GoneCounts(NEW, es, c);
    }
  }

  // ----- who unregisters twice: slow consumers -----

  /** Unregister calls of c handled before the loop stops: evictions, or its read pump's. */
  function Removals(es: seq<Event>, c: Client, evicted: bool): nat
    decreases |es|
  {
    if es == [] || es[0].Stop? then 0
    else (if es[0] == Unregister(c, evicted) then 1 else 0) + Removals(es[1..], c, evicted)
  }

  lemma {:induction false} RemovalsAddUp(es: seq<Event>, c: Client)
    ensures Unregistrations(es, c) == Removals(es, c, true) + Removals(es, c, false)
    decreases |es|
  {
    if es != [] && !es[0].Stop? {
      RemovalsAddUp(es[1..], c);
    }
  }

  /** A broadcast finds c among its targets with a full queue. */
  predicate Overflow(h: State, e: Event, c: Client) {
    && !h.panicked && !h.stopped && e.Send?
    && !AnyClosed(h.chans, Targets(h, e.msg)) && c in FullAmong(h.chans, Targets(h, e.msg))
  }

  function Overflows(h: State, es: seq<Event>, c: Client): nat
    decreases |es|
  {
    if es == [] then 0
    else (if Overflow(h, es[0], c) then 1 else 0) + Overflows(Step(h, es[0]), es[1..], c)
  }

  lemma SendPending(h: State, msg: Broadcast, c: Client)
    requires !h.panicked && !h.stopped && !SendToRoom(h, msg).panicked
    ensures CountOf(SendToRoom(h, msg).pending, c)
         == CountOf(h.pending, c) + (if Overflow(h, Send(msg), c) then 1 else 0)
  {
    assert SendToRoom(h, msg).pending == OneMoreEach(h.pending, FullAmong(h.chans, Targets(h, msg)));
  }

  lemma HandedPending(h: State, d: Client, c: Client)
    requires Pending(h, d)
    ensures CountOf(Handed(h, d).pending, c) + (if c == d then 1 else 0) == CountOf(h.pending, c)
  {
  }

  lemma StepPending(h: State, e: Event, c: Client)
    requires Orderly(h, e) && !h.panicked && !Step(h, e).panicked && !h.stopped
    ensures CountOf(Step(h, e).pending, c) + (if e == Unregister(c, true) then 1 else 0)
         == CountOf(h.pending, c) + (if Overflow(h, e, c) then 1 else 0)
  {
    match e
    case Unregister(d, evicted) => if evicted { HandedPending(h, d, c); }
    case Send(msg) => SendPending(h, msg, c);
    case Register(_) => assert Step(h, e).pending == h.pending;
    case SendToUser(user, data) => assert ToUser(h, user, data).pending == h.pending;
    case Take(d, count) => assert TakeItems(h, d, count).pending == h.pending;
    case Stop => assert Shutdown(h).pending == h.pending;
  }

  lemma {:induction false} NothingAfterStop(h: State, es: seq<Event>, c: Client)
    requires h.stopped
    ensures Overflows(h, es, c) == 0 && Run(h, es).pending == h.pending
    decreases |es|
  {
    if es != [] {
      NothingAfterStop(Step(h, es[0]), es[1..], c);
    }
  }

  /** Every overflow asks for one eviction, which is handled or still pending. */
  lemma {:induction false} EvictionBalance(h: State, es: seq<Event>, c: Client)
    requires OrderlyRun(h, es) && !Run(h, es).panicked && !h.stopped
    ensures CountOf(Run(h, es).pending, c) + Removals(es, c, true) == CountOf(h.pending, c) + Overflows(h, es, c)
    decreases |es|
  {
    if es != [] {
      var h' := Step(h, es[0]);
      NoPanicSoFar(h, es);
      StepPending(h, es[0], c);
      if es[0].Stop? {
        NothingAfterStop(h', es[1..], c);
      } else {
        EvictionBalance(h', es[1..], c);
      }
    }
  }

  lemma NoPanicSoFar(h: State, es: seq<Event>)
    requires es != [] && !Run(h, es).panicked && !h.stopped
    ensures !h.panicked && !Step(h, es[0]).panicked && (Step(h, es[0]).stopped <==> es[0].Stop?)
  {
    var h' := Step(h, es[0]);
    assert Run(h, es) == Run(h', es[1..]);
    assert h.panicked ==> h'.panicked;
    if h'.panicked {
      GoneIsFinal(h', es[1..]);
      assert false;
    }
    if es[0].Stop? {
      assert h' == Shutdown(h);
    } else {
      StepGone(h, es[0], Client(0, "", []));
    }
  }

  /** Nothing else asks for evictions. */
  lemma OnlyOverflowsAsk(h: State, e: Event, c: Client)
    ensures Pending(Step(h, e), c) ==> Pending(h, c) || Overflow(h, e, c)
  {
  }

  lemma {:induction false} EvictionNeedsOverflow(h: State, es: seq<Event>, c: Client)
    requires OrderlyRun(h, es) && Removals(es, c, true) > 0
    ensures Pending(h, c) || Overflows(h, es, c) > 0
    decreases |es|
  {
    if es[0] != Unregister(c, true) {
      EvictionNeedsOverflow(Step(h, es[0]), es[1..], c);
      OnlyOverflowsAsk(h, es[0], c);
    }
  }

  /** A client has one read pump, which unregisters it when it ends. */
  ghost predicate OnePumpEach(es: seq<Event>) {
    forall c :: Removals(es, c, false) <= 1
  }

  /** As long as every client's queue has room for each broadcast, nothing panics. */
  lemma PanicNeedsOverflow(es: seq<Event>)
    requires OrderlyRun(NEW, es) && OnePumpEach(es) && Run(NEW, es).panicked
    ensures exists c :: Overflows(NEW, es, c) > 0 && Unregistrations(es, c) > 1
  {
    PanicsIffUnregisteredTwice(es);
    var c :| Unregistrations(es, c) > 1;
    RemovalsAddUp(es, c);
    assert Removals(es, c, false) <= 1;
    EvictionNeedsOverflow(NEW, es, c);
  }

  /** The evictions asked for have been handled, and the read pumps of those clients,
      whose connections they close, have ended. */
  ghost predicate EvictionsDone(es: seq<Event>) {
    forall c :: Overflows(NEW, es, c) > 0 ==>
      Removals(es, c, false) == 1 && (Run(NEW, es).panicked || !Pending(Run(NEW, es), c))
  }

  /** A run in which each read pump unregisters its client once and what evictions were
      asked for are done panics if and only if some broadcast met a full queue. */
  lemma PanicsIffOverflow(es: seq<Event>)
    requires OrderlyRun(NEW, es) && OnePumpEach(es) && EvictionsDone(es)
    ensures Run(NEW, es).panicked <==> exists c :: Overflows(NEW, es, c) > 0
  {
    if Run(NEW, es).panicked {
      PanicNeedsOverflow(es);
    } else if c :| Overflows(NEW, es, c) > 0 {
      EvictionBalance(NEW, es, c);
      RemovalsAddUp(es, c);
      PanicsIffUnregisteredTwice(es);
      assert false;
    }
  }

  /** Removing a client just added restores the indexes. */
  lemma RegisterThenUnregisterRestores(h: State, c: Client)
    requires Exact(h) && c !in h.chans
    ensures var h' := RemoveClient(AddClient(h, c), c);
            h'.clients == h.clients && h'.rooms == h.rooms && h'.users == h.users
  {
    FiledIsExact(h.clients, c, false);
    FiledIsExact(h.clients, c, true);
    UnfiledIsExact(h.clients + {c}, c, false);
    UnfiledIsExact(h.clients + {c}, c, true);
    assert h.clients + {c} - {c} == h.clients;
  }

  // ----- each hypothesis is needed -----

  /** A slow consumer is unregistered by the eviction and again by its read pump. */
  lemma EvictionThenReadPumpPanics(h: State, c: Client)
    requires !h.panicked && !h.stopped && c in h.clients
    ensures Step(Step(h, Unregister(c, true)), Unregister(c, false)).panicked
  {
    assert ChannelIn(Step(h, Unregister(c, true)).chans, c).closed;
  }

  lemma ClientIsFiled(h: State, c: Client)
    requires Exact(h) && c in h.clients
    ensures c.user in h.users && c in h.users[c.user]
  {
    IndexHolds(h, c.user, true);
    assert c in ClientsAt(h.clients, true, c.user);
  }

  lemma OverflowCloses(h: State, c: Client, data: string)
    requires Exact(h) && c in h.clients && Full(h.chans[c])
    ensures var h' := ToUser(h, c.user, data);
            h'.stopped == h.stopped && h'.rooms == h.rooms && ChannelIn(h'.chans, c).closed
  {
    ClientIsFiled(h, c);
    UsersAreClients(h, c.user);
    ClientsAreOpen(h, h.users[c.user]);
  }

  lemma MemberIsTarget(h: State, c: Client, room: string, data: string)
    requires Exact(h) && c in h.clients && room in c.rooms
    ensures c in TargetsIn(h.rooms, Broadcast(room, data, Nobody))
  {
    TargetsAreClients(h, Broadcast(room, data, Nobody));
  }

  /** Whoever is filed under a user is a client of that user with an open channel. */
  predicate UsersOpen(h: State) {
    forall user, c :: user in h.users && c in h.users[user] ==> c.user == user && !ChannelIn(h.chans, c).closed
  }

  lemma ExactUsersAreOpen(h: State)
    requires Exact(h)
    ensures UsersOpen(h)
  {
    forall user, c | user in h.users && c in h.users[user] ensures c.user == user && !ChannelIn(h.chans, c).closed {
      UsersAreClients(h, user);
    }
  }

  /** A client whose queue is full is closed and leaves its user's set at once. */
  lemma ToUserKeepsOpen(h: State, user: string, data: string)
    requires UsersOpen(h)
    ensures UsersOpen(ToUser(h, user, data)) && ToUser(h, user, data).panicked == h.panicked
  {
    if user in h.users {
      assert !AnyClosed(h.chans, h.users[user]);
      var h' := ToUser(h, user, data);
      forall u, c | u in h'.users && c in h'.users[u] ensures c.user == u && !ChannelIn(h'.chans, c).closed {
        assert u in h.users && c in h.users[u];
        assert u == user ==> c !in FullAmong(h.chans, h.users[user]);
      }
    }
  }

  predicate OnlyToUsers(es: seq<Event>) {
    forall i :: 0 <= i < |es| ==> es[i].SendToUser?
  }

  /** Messages to users alone never panic, even if they overflow queues: it takes a
      broadcast, a removal or a stop to come upon the channel that was closed. */
  lemma {:induction false} UserMessagesAloneNeverPanic(h: State, es: seq<Event>)
    requires UsersOpen(h) && !h.panicked && OnlyToUsers(es)
    ensures UsersOpen(Run(h, es)) && !Run(h, es).panicked
    decreases |es|
  {
    if es != [] {
      ToUserKeepsOpen(h, es[0].user, es[0].data);
      assert forall i :: 0 <= i < |es[1..]| ==> es[1..][i] == es[i + 1];
      UserMessagesAloneNeverPanic(Step(h, es[0]), es[1..]);
    }
  }

  lemma UserOverflowIsHarmlessAlone(h: State, es: seq<Event>)
    requires Exact(h) && !h.panicked && OnlyToUsers(es)
    ensures !Run(h, es).panicked
  {
    ExactUsersAreOpen(h);
    UserMessagesAloneNeverPanic(h, es);
  }

  /** A full queue met by SendToUser leaves a closed channel in the rooms. */
  lemma OverflowLeavesAClosedTarget(h: State, c: Client, room: string, data: string)
    requires Exact(h) && !h.panicked && !h.stopped
    requires c in h.clients && room in c.rooms && Full(h.chans[c])
    ensures var h' := Step(h, SendToUser(c.user, data));
            && !h'.stopped && c in Targets(h', Broadcast(room, data, Nobody))
            && ChannelIn(h'.chans, c).closed
  {
    OverflowCloses(h, c, data);
    MemberIsTarget(h, c, room, data);
  }

  lemma OverflowThenBroadcastPanics(h: State, c: Client, room: string, data: string)
    requires Exact(h) && !h.panicked && !h.stopped
    requires c in h.clients && room in c.rooms && Full(h.chans[c])
    ensures Step(Step(h, SendToUser(c.user, data)), Send(Broadcast(room, data, Nobody))).panicked
  {
    OverflowLeavesAClosedTarget(h, c, room, data);
    ClosedTargetPanics(Step(h, SendToUser(c.user, data)), Broadcast(room, data, Nobody), c);
  }

  lemma ClosedTargetPanics(h: State, msg: Broadcast, c: Client)
    requires !h.stopped && c in Targets(h, msg) && ChannelIn(h.chans, c).closed
    ensures Step(h, Send(msg)).panicked
  {
  }

  /** The hub's shutdown closes the channels but leaves them among the users. */
  lemma SendToUserAfterStopPanics(h: State, c: Client, data: string)
    requires Exact(h) && !h.panicked && !h.stopped && c in h.clients
    ensures Step(Step(h, Stop), SendToUser(c.user, data)).panicked
  {
    StopClosesUsers(h, c);
  }

  lemma StopClosesUsers(h: State, c: Client)
    requires Exact(h) && !h.panicked && !h.stopped && c in h.clients
    ensures var h' := Step(h, Stop);
            c.user in h'.users && c in h'.users[c.user] && ChannelOf(h', c).closed
  {
    ClientIsFiled(h, c);
    ClientsAreOpen(h, h.clients);
  }
}
