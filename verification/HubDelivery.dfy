/** What a client's queue holds, against the order of broadcasts. */
module HubDelivery {
  import opened Hub
  import opened HubTheorems

  predicate Addressed(msg: Broadcast, c: Client) {
    msg.room in c.rooms && !Excluded(msg, c)
  }

  /** The room events among the items. */
  function RoomEvents(items: seq<Item>): seq<Item> {
    if items == [] then []
    else
      var last := items[|items| - 1];
      RoomEvents(items[..|items| - 1]) + (if last.FromRoom? then [last] else [])
  }

  /** What a client that misses nothing gets of the broadcasts from `since` on. */
  function Expected(log: seq<Broadcast>, since: nat, c: Client): seq<Item> {
    if |log| <= since then []
    else
      var n := |log| - 1;
      Expected(log[..n], since, c) + (if Addressed(log[n], c) then [FromRoom(n, log[n].data)] else [])
  }

  /** The events are broadcasts addressed to c since it registered, each at most
      once and in broadcast order. */
  predicate InBroadcastOrder(events: seq<Item>, log: seq<Broadcast>, since: nat, c: Client) {
    && (forall i :: 0 <= i < |events| ==>
          && events[i].FromRoom? && since <= events[i].n < |log|
          && Addressed(log[events[i].n], c) && events[i].data == log[events[i].n].data)
    && (forall i, j :: 0 <= i < j < |events| ==> events[i].n < events[j].n)
  }

  function Received(h: State, c: Client): seq<Item> {
    RoomEvents(ChannelOf(h, c).sent)
  }

  predicate Served(h: State, c: Client) {
    c in h.since ==>
      && h.since[c] <= |h.log|
      && InBroadcastOrder(Received(h, c), h.log, h.since[c], c)
      && (c in h.clients && !Pending(h, c) ==> Received(h, c) == Expected(h.log, h.since[c], c))
  }

  lemma RoomEventsPush(items: seq<Item>, item: Item)
    ensures RoomEvents(items + [item]) == RoomEvents(items) + (if item.FromRoom? then [item] else [])
  {
    assert (items + [item])[..|items|] == items;
  }

  lemma LongerLog(events: seq<Item>, log: seq<Broadcast>, msg: Broadcast, since: nat, c: Client)
    requires InBroadcastOrder(events, log, since, c) && since <= |log|
    ensures InBroadcastOrder(events, log + [msg], since, c)
    ensures Addressed(msg, c) ==> InBroadcastOrder(events + [FromRoom(|log|, msg.data)], log + [msg], since, c)
  {
  }

  lemma ExpectedGrows(log: seq<Broadcast>, msg: Broadcast, since: nat, c: Client)
    requires since <= |log|
    ensures Expected(log + [msg], since, c)
         == Expected(log, since, c) + (if Addressed(msg, c) then [FromRoom(|log|, msg.data)] else [])
  {
    assert (log + [msg])[..|log|] == log;
  }

  lemma BroadcastServes(h: State, msg: Broadcast, c: Client)
    requires Exact(h) && Served(h, c) && !AnyClosed(h.chans, Targets(h, msg))
    ensures Served(SendToRoom(h, msg), c)
  {
    if c in h.since {
      var h' := SendToRoom(h, msg);
      var ch := ChannelOf(h, c);
      TargetsAreClients(h, msg);
      LongerLog(Received(h, c), h.log, msg, h.since[c], c);
      ExpectedGrows(h.log, msg, h.since[c], c);
      RoomEventsPush(ch.sent, FromRoom(|h.log|, msg.data));
      assert c in Targets(h, msg) <==> c in h.clients && Addressed(msg, c);
      if c in Targets(h, msg) {
        assert h'.chans[c] == Push(ch, FromRoom(|h.log|, msg.data));
        assert Full(ch) ==> c in FullAmong(h.chans, Targets(h, msg));
      } else {
        assert ChannelOf(h', c) == ch;
      }
    }
  }

  lemma SameEventsServed(h: State, h': State, c: Client)
    requires Served(h, c) && Received(h', c) == Received(h, c)
    requires h'.log == h.log && h'.since == h.since
    requires c in h'.clients ==> c in h.clients && (Pending(h, c) ==> Pending(h', c))
    ensures Served(h', c)
  {
  }

  lemma ToUserServes(h: State, user: string, data: string, c: Client)
    requires Served(h, c)
    ensures Served(ToUser(h, user, data), c)
  {
    DirectsAreNoRoomEvents(h, user, data, c);
    SameEventsServed(h, ToUser(h, user, data), c);
  }

  lemma DirectsAreNoRoomEvents(h: State, user: string, data: string, c: Client)
    ensures Received(ToUser(h, user, data), c) == Received(h, c)
  {
    RoomEventsPush(ChannelOf(h, c).sent, Direct(data));
    if user in h.users && !AnyClosed(h.chans, h.users[user]) {
      DirectAdds(h.chans, h.users[user], data, c);
    }
  }

  lemma DirectAdds(chans: map<Client, Channel>, cs: set<Client>, data: string, c: Client)
    ensures var sent := ChannelIn(PushOrClose(chans, cs, Direct(data)), c).sent;
            sent == ChannelIn(chans, c).sent || sent == ChannelIn(chans, c).sent + [Direct(data)]
  {
  }

  lemma RegisterServes(h: State, d: Client, c: Client)
    requires Exact(h) && Served(h, c) && d !in h.chans
    ensures Served(AddClient(h, d), c)
  {
  }

  lemma UnregisterServes(h: State, d: Client, evicted: bool, c: Client)
    requires Served(h, c)
    ensures Served(RemoveClient(if evicted then Hub.Handed(h, d) else h, d), c)
  {
    var h' := RemoveClient(if evicted then Hub.Handed(h, d) else h, d);
    SameEventsServed(h, h', c);
  }

  lemma StopServes(h: State, c: Client)
    requires Served(h, c)
    ensures Served(Shutdown(h), c)
  {
    SameEventsServed(h, Shutdown(h), c);
  }

  lemma TakeServes(h: State, d: Client, count: nat, c: Client)
    requires Served(h, c)
    ensures Served(TakeItems(h, d, count), c)
  {
    SameEventsServed(h, TakeItems(h, d, count), c);
  }

  lemma StepServes(h: State, e: Event, c: Client)
    requires Sound(h) && Orderly(h, e) && Served(h, c)
    ensures Served(Step(h, e), c)
  {
    if !h.panicked {
      match e
      case Register(d) => if !h.stopped { RegisterServes(h, d, c); }
      case Unregister(d, evicted) => if !h.stopped { UnregisterServes(h, d, evicted, c); }
      case Send(msg) =>
        if !h.stopped && !AnyClosed(h.chans, Targets(h, msg)) {
          BroadcastServes(h, msg, c);
        }
      case SendToUser(user, data) => ToUserServes(h, user, data, c);
      case Take(d, count) => TakeServes(h, d, count, c);
      case Stop => if !h.stopped { StopServes(h, c); }
    }
  }

  lemma {:induction false} RunServes(h: State, es: seq<Event>, c: Client)
    requires Sound(h) && OrderlyRun(h, es) && Served(h, c)
    ensures Served(Run(h, es), c)
    decreases |es|
  {
    if es != [] {
      StepSound(h, es[0]);
      StepServes(h, es[0], c);
      RunServes(Step(h, es[0]), es[1..], c);
    }
  }

  /** In every orderly run, a client's room events are broadcasts since it registered,
      and all those meant for it unless an unregistration is pending. */
  lemma NothingIsMissing(es: seq<Event>, c: Client)
    requires OrderlyRun(NEW, es)
    requires c in Run(NEW, es).since
    ensures var h := Run(NEW, es);
            && h.since[c] <= |h.log|
            && InBroadcastOrder(Received(h, c), h.log, h.since[c], c)
            && (c in h.clients && !Pending(h, c) ==> Received(h, c) == Expected(h.log, h.since[c], c))
  {
    NewIsSound();
    RunServes(NEW, es, c);
  }

  // ----- in every run, orderly or not -----

  /** The n-th broadcast was for c, which was registered by then, and it is not queued. */
  predicate Missed(h: State, c: Client, n: nat) {
    && c in h.since && h.since[c] <= n < |h.log|
    && Addressed(h.log[n], c) && FromRoom(n, h.log[n].data) !in Received(h, c)
  }

  ghost predicate MissesNothing(h: State, c: Client) {
    forall n :: !Missed(h, c, n)
  }

  /** c's events are in broadcast order, and it misses none while it is registered
      and no unregistration is pending. */
  ghost predicate Ordered(h: State, c: Client) {
    && InBroadcastOrder(Received(h, c), h.log, 0, c)
    && (c in h.clients && !Pending(h, c) ==> MissesNothing(h, c))
  }

  /** A step that queues no broadcast: c keeps what it has, and if it is now registered
      with nothing pending, it was so before or has only just been registered. */
  predicate Quiet(h: State, h': State, c: Client) {
    && Received(h', c) == Received(h, c) && h'.log == h.log
    && (c in h'.clients && !Pending(h', c) && c in h'.since && h'.since[c] < |h.log| ==>
          c in h.clients && !Pending(h, c) && c in h.since && h'.since[c] == h.since[c])
  }

  lemma QuietOrders(h: State, h': State, c: Client)
    requires Ordered(h, c) && Quiet(h, h', c)
    ensures Ordered(h', c)
  {
    if c in h'.clients && !Pending(h', c) {
      forall n: nat ensures !Missed(h', c, n) {
        if Missed(h', c, n) {
          assert Missed(h, c, n);
        }
      }
    }
  }

  lemma RegisterOrders(h: State, d: Client, c: Client)
    requires Ordered(h, c)
    ensures Ordered(AddClient(h, d), c)
  {
    QuietOrders(h, AddClient(h, d), c);
  }

  lemma UnregisterOrders(h: State, d: Client, evicted: bool, c: Client)
    requires Ordered(h, c)
    ensures Ordered(RemoveClient(if evicted then Hub.Handed(h, d) else h, d), c)
  {
    QuietOrders(h, RemoveClient(if evicted then Hub.Handed(h, d) else h, d), c);
  }

  lemma TakeOrders(h: State, d: Client, count: nat, c: Client)
    requires Ordered(h, c)
    ensures Ordered(TakeItems(h, d, count), c)
  {
    QuietOrders(h, TakeItems(h, d, count), c);
  }

  lemma StopOrders(h: State, c: Client)
    requires Ordered(h, c)
    ensures Ordered(Shutdown(h), c)
  {
    QuietOrders(h, Shutdown(h), c);
  }

  lemma ToUserOrders(h: State, user: string, data: string, c: Client)
    requires Ordered(h, c)
    ensures Ordered(ToUser(h, user, data), c)
  {
    DirectsAreNoRoomEvents(h, user, data, c);
    QuietOrders(h, ToUser(h, user, data), c);
  }

  lemma TargetGetsOrIsEvicted(h: State, msg: Broadcast, c: Client)
    requires !AnyClosed(h.chans, Targets(h, msg))
    ensures var h', item := SendToRoom(h, msg), FromRoom(|h.log|, msg.data);
            ChannelOf(h', c) == if c in Targets(h, msg) then Push(ChannelOf(h, c), item) else ChannelOf(h, c)
    ensures Pending(SendToRoom(h, msg), c) <==> Pending(h, c) || (c in Targets(h, msg) && Full(ChannelOf(h, c)))
  {
    assert c in FullAmong(h.chans, Targets(h, msg)) <==> c in Targets(h, msg) && Full(ChannelOf(h, c));
  }

  /** A client in the room gets the broadcast or, its queue being full, is evicted. */
  lemma BroadcastReaches(h: State, msg: Broadcast, c: Client)
    requires RoomsExact(h) && !AnyClosed(h.chans, Targets(h, msg))
    ensures var h', item := SendToRoom(h, msg), FromRoom(|h.log|, msg.data);
            && (Received(h', c) == Received(h, c) || (Addressed(msg, c) && Received(h', c) == Received(h, c) + [item]))
            && (Pending(h, c) ==> Pending(h', c))
            && (c in h.clients && Addressed(msg, c) && !Pending(h', c) ==> item in Received(h', c))
  {
    TargetsAreClients(h, msg);
    TargetGetsOrIsEvicted(h, msg, c);
    RoomEventsPush(ChannelOf(h, c).sent, FromRoom(|h.log|, msg.data));
  }

  lemma MissesNothingNew(h: State, h': State, c: Client, msg: Broadcast)
    requires MissesNothing(h, c) && h'.log == h.log + [msg] && h'.since == h.since
    requires forall e :: e in Received(h, c) ==> e in Received(h', c)
    requires Addressed(msg, c) ==> FromRoom(|h.log|, msg.data) in Received(h', c)
    ensures MissesNothing(h', c)
  {
    forall n: nat ensures !Missed(h', c, n) {
      if Missed(h', c, n) && n < |h.log| {
        assert Missed(h, c, n);
      }
    }
  }

  lemma BroadcastOrders(h: State, msg: Broadcast, c: Client)
    requires RoomsExact(h) && Ordered(h, c) && !AnyClosed(h.chans, Targets(h, msg))
    ensures Ordered(SendToRoom(h, msg), c)
  {
    var h' := SendToRoom(h, msg);
    BroadcastReaches(h, msg, c);
    LongerLog(Received(h, c), h.log, msg, 0, c);
    if c in h'.clients && !Pending(h', c) {
      MissesNothingNew(h, h', c, msg);
    }
  }

  lemma SendOrders(h: State, msg: Broadcast, c: Client)
    requires RoomsExact(h) && Ordered(h, c)
    ensures Ordered(SendToRoom(h, msg), c)
  {
    if AnyClosed(h.chans, Targets(h, msg)) {
      QuietOrders(h, SendToRoom(h, msg), c);
    } else {
      BroadcastOrders(h, msg, c);
    }
  }

  lemma StepOrders(h: State, e: Event, c: Client)
    requires RoomsExact(h) && Ordered(h, c)
    ensures Ordered(Step(h, e), c)
  {
    if !h.panicked {
      match e
      case Register(d) => if !h.stopped { RegisterOrders(h, d, c); }
      case Unregister(d, evicted) => if !h.stopped { UnregisterOrders(h, d, evicted, c); }
      case Send(msg) => if !h.stopped { SendOrders(h, msg, c); }
      case SendToUser(user, data) => ToUserOrders(h, user, data, c);
      case Take(d, count) => TakeOrders(h, d, count, c);
      case Stop => if !h.stopped { StopOrders(h, c); }
    }
  }

  lemma {:induction false} RunOrders(h: State, es: seq<Event>, c: Client)
    requires RoomsExact(h) && Ordered(h, c)
    ensures Ordered(Run(h, es), c)
    decreases |es|
  {
    if es != [] {
      StepKeepsRooms(h, es[0]);
      StepOrders(h, es[0], c);
      RunOrders(Step(h, es[0]), es[1..], c);
    }
  }

  /** In every run, a client's room events are broadcasts addressed to it, in broadcast
      order and without repeats; if a registered client has missed a broadcast, an
      unregistration of it is pending. */
  lemma DeliveryOrder(es: seq<Event>, c: Client)
    ensures var h := Run(NEW, es);
            && InBroadcastOrder(Received(h, c), h.log, 0, c)
            && (c in h.clients && (exists n :: Missed(h, c, n)) ==> Pending(h, c))
  {
    NewIsSound();
    RunOrders(NEW, es, c);
  }

  /** Two clients that both got broadcasts m and n got them in the same order. */
  lemma SameOrderForAll(es: seq<Event>, c: Client, d: Client, i: nat, j: nat, k: nat, l: nat)
    requires var h := Run(NEW, es);
             && i < j < |Received(h, c)| && k < |Received(h, d)| && l < |Received(h, d)|
             && Received(h, c)[i] == Received(h, d)[k] && Received(h, c)[j] == Received(h, d)[l]
    ensures k < l
  {
    DeliveryOrder(es, c);
    DeliveryOrder(es, d);
  }

  // ----- messages to a user -----

  /** What the items sent to the user itself say. */
  function Directs(items: seq<Item>): seq<string> {
    if items == [] then []
    else
      var last := items[|items| - 1];
      Directs(items[..|items| - 1]) + (if last.Direct? then [last.data] else [])
  }

  /** What an event sends to c's user, if c is registered (`on`). */
  function Sends(e: Event, c: Client, on: bool): seq<string> {
    if on && e.SendToUser? && e.user == c.user then [e.data] else []
  }

  predicate RegisteredAfter(e: Event, c: Client, on: bool) {
    (on && !(e.Unregister? && e.client == c)) || (e.Register? && e.client == c)
  }

  /** What a run sends to c's user while c is registered, until the hub stops; `on` says
      whether c is registered at first. */
  function SentToUser(es: seq<Event>, c: Client, on: bool): seq<string>
    decreases |es|
  {
    if es == [] || es[0].Stop? then []
    else Sends(es[0], c, on) + SentToUser(es[1..], c, RegisteredAfter(es[0], c, on))
  }

  lemma DirectsPush(items: seq<Item>, item: Item)
    ensures Directs(items + [item]) == Directs(items) + (if item.Direct? then [item.data] else [])
  {
    assert (items + [item])[..|items|] == items;
  }

  function DirectsOf(h: State, c: Client): seq<string> {
    Directs(ChannelOf(h, c).sent)
  }

  /** A broadcast adds no message to a user. */
  lemma BroadcastIsNotDirect(h: State, msg: Broadcast, c: Client)
    ensures DirectsOf(SendToRoom(h, msg), c) == DirectsOf(h, c)
  {
    DirectsPush(ChannelOf(h, c).sent, FromRoom(|h.log|, msg.data));
    if !AnyClosed(h.chans, Targets(h, msg)) {
      TargetGetsOrIsEvicted(h, msg, c);
    }
  }

  /** A message to a user is queued for each of the user's registered clients, and for
      nobody else. */
  lemma UserGetsMessage(h: State, user: string, data: string, c: Client)
    requires Exact(h) && NoOverflow(h, SendToUser(user, data))
    ensures DirectsOf(ToUser(h, user, data), c) == DirectsOf(h, c) + Sends(SendToUser(user, data), c, c in h.clients)
  {
    if c in h.clients && c.user == user {
      ClientIsFiled(h, c);
    }
    if user in h.users {
      UsersAreClients(h, user);
      ClientsAreOpen(h, h.users[user]);
      OfferedToUser(h.chans, h.users[user], data, c);
    }
  }

  lemma OfferedToUser(chans: map<Client, Channel>, cs: set<Client>, data: string, c: Client)
    requires FullAmong(chans, cs) == {}
    ensures Directs(ChannelIn(PushOrClose(chans, cs, Direct(data)), c).sent)
         == Directs(ChannelIn(chans, c).sent) + (if c in cs then [data] else [])
  {
    DirectsPush(ChannelIn(chans, c).sent, Direct(data));
    assert c in cs ==> c !in FullAmong(chans, cs);
  }

  lemma RemovalIsNotDirect(h: State, d: Client, evicted: bool, c: Client)
    ensures DirectsOf(RemoveClient(if evicted then Hub.Handed(h, d) else h, d), c) == DirectsOf(h, c)
  {
    assert ChannelOf(RemoveClient(if evicted then Hub.Handed(h, d) else h, d), c).sent == ChannelOf(h, c).sent;
  }

  lemma RegistrationIsNotDirect(h: State, d: Client, c: Client)
    ensures DirectsOf(AddClient(h, d), c) == DirectsOf(h, c)
  {
    assert ChannelOf(AddClient(h, d), c).sent == ChannelOf(h, c).sent;
  }

  lemma TakingIsNotDirect(h: State, d: Client, count: nat, c: Client)
    ensures DirectsOf(TakeItems(h, d, count), c) == DirectsOf(h, c)
  {
    assert ChannelOf(TakeItems(h, d, count), c).sent == ChannelOf(h, c).sent;
  }

  lemma StoppingIsNotDirect(h: State, c: Client)
    ensures DirectsOf(Shutdown(h), c) == DirectsOf(h, c)
  {
    assert ChannelIn(CloseAll(h.chans, h.clients), c).sent == ChannelOf(h, c).sent;
  }

  /** One step of a running hub, seen by one client. */
  lemma StepDirects(h: State, e: Event, c: Client)
    requires Sound(h) && Orderly(h, e) && !h.panicked && !h.stopped
    ensures DirectsOf(Step(h, e), c) == DirectsOf(h, c) + Sends(e, c, c in h.clients)
  {
    match e
    case SendToUser(user, data) => UserGetsMessage(h, user, data, c);
    case Send(msg) => BroadcastIsNotDirect(h, msg, c);
    case Register(d) => RegistrationIsNotDirect(h, d, c);
    case Unregister(d, evicted) => RemovalIsNotDirect(h, d, evicted, c);
    case Take(d, count) => TakingIsNotDirect(h, d, count, c);
    case Stop => StoppingIsNotDirect(h, c);
  }

  lemma StepRegisters(h: State, e: Event, c: Client)
    requires !h.panicked && !h.stopped && !e.Stop?
    ensures c in Step(h, e).clients <==> RegisteredAfter(e, c, c in h.clients)
  {
    match e
    case Send(msg) => SendKeeps(h, msg);
    case SendToUser(user, data) => ToUserKeeps(h, user, data);
    case Register(_) =>
    case Unregister(_, _) =>
    case Take(_, _) =>
  }

  lemma {:induction false} DeadHubSendsNothing(h: State, es: seq<Event>, c: Client)
    requires h.panicked || (h.stopped && OrderlyRun(h, es))
    ensures DirectsOf(Run(h, es), c) == DirectsOf(h, c)
    decreases |es|
  {
    if es != [] {
      StoppedKeeps(h, es[0], c);
      DeadHubSendsNothing(Step(h, es[0]), es[1..], c);
    }
  }

  lemma StoppedKeeps(h: State, e: Event, c: Client)
    requires h.panicked || (h.stopped && Orderly(h, e))
    ensures DirectsOf(Step(h, e), c) == DirectsOf(h, c)
    ensures if h.panicked then Step(h, e).panicked else Step(h, e).stopped
  {
    if !h.panicked && e.Take? {
      TakingIsNotDirect(h, e.client, e.count, c);
    }
  }

  /** `got` is all of `due`, or a first part of it if the hub has panicked. */
  predicate CutShort(got: seq<string>, due: seq<string>, panicked: bool) {
    got <= due && (!panicked ==> got == due)
  }

  lemma CutShortCons(got: seq<string>, had: seq<string>, first: seq<string>, rest: seq<string>, panicked: bool)
    requires CutShort(got, (had + first) + rest, panicked)
    ensures CutShort(got, had + (first + rest), panicked)
  {
    assert (had + first) + rest == had + (first + rest);
  }

  lemma {:induction false} RunDirects(h: State, es: seq<Event>, c: Client)
    requires Sound(h) && OrderlyRun(h, es) && !h.panicked && !h.stopped
    ensures CutShort(DirectsOf(Run(h, es), c), DirectsOf(h, c) + SentToUser(es, c, c in h.clients), Run(h, es).panicked)
    decreases |es|
  {
    if es == [] {
      assert DirectsOf(h, c) + [] == DirectsOf(h, c);
    } else {
      var h', first := Step(h, es[0]), Sends(es[0], c, c in h.clients);
      var rest := SentToUser(es[1..], c, RegisteredAfter(es[0], c, c in h.clients));
      StepDirects(h, es[0], c);
      if h'.panicked || es[0].Stop? {
        DeadHubSendsNothing(h', es[1..], c);
        EndOfDirects(h, es, c);
      } else {
        StepSound(h, es[0]);
        StepGone(h, es[0], c);
        StepRegisters(h, es[0], c);
        RunDirects(h', es[1..], c);
        CutShortCons(DirectsOf(Run(h, es), c), DirectsOf(h, c), first, rest, Run(h, es).panicked);
      }
    }
  }

  /** The last step that counts. */
  lemma EndOfDirects(h: State, es: seq<Event>, c: Client)
    requires es != [] && (Step(h, es[0]).panicked || es[0].Stop?)
    requires DirectsOf(Run(h, es), c) == DirectsOf(h, c) + Sends(es[0], c, c in h.clients)
    ensures CutShort(DirectsOf(Run(h, es), c), DirectsOf(h, c) + SentToUser(es, c, c in h.clients), Run(h, es).panicked)
  {
    if es[0].Stop? {
      assert Sends(es[0], c, c in h.clients) == [] && SentToUser(es, c, c in h.clients) == [];
    } else {
      GoneIsFinal(Step(h, es[0]), es[1..]);
    }
  }

  /** In every orderly run the messages queued for a client as its user's are exactly those
      sent to that user while it was registered, each once, as they were sent and in that
      order; a panic may cut them short. A client of another user gets none of them. */
  lemma UserMessagesArrive(es: seq<Event>, c: Client)
    requires OrderlyRun(NEW, es)
    ensures DirectsOf(Run(NEW, es), c) <= SentToUser(es, c, false)
    ensures !Run(NEW, es).panicked ==> DirectsOf(Run(NEW, es), c) == SentToUser(es, c, false)
  {
    NewIsSound();
    RunDirects(NEW, es, c);
    assert [] + SentToUser(es, c, false) == SentToUser(es, c, false);
  }

  predicate WithinCapacity(chans: map<Client, Channel>) {
    forall c :: c in chans ==> chans[c].taken <= |chans[c].sent| <= chans[c].taken + CAPACITY
  }

  /** No queue ever holds more than its capacity. */
  predicate Bounded(h: State) {
    WithinCapacity(h.chans)
  }

  lemma PushesBounded(chans: map<Client, Channel>, cs: set<Client>, item: Item)
    requires WithinCapacity(chans)
    ensures WithinCapacity(PushAll(chans, cs, item)) && WithinCapacity(PushOrClose(chans, cs, item))
    ensures WithinCapacity(CloseAll(chans, cs))
  {
  }

  lemma UpdateBounded(h: State, c: Client, count: nat)
    requires Bounded(h)
    ensures Bounded(AddClient(h, c)) && Bounded(RemoveClient(h, c)) && Bounded(TakeItems(h, c, count))
  {
  }

  lemma SendBounded(h: State, msg: Broadcast)
    requires Bounded(h)
    ensures Bounded(SendToRoom(h, msg))
  {
    PushesBounded(h.chans, Targets(h, msg), FromRoom(|h.log|, msg.data));
  }

  lemma ToUserBounded(h: State, user: string, data: string)
    requires Bounded(h)
    ensures Bounded(ToUser(h, user, data))
  {
    if user in h.users {
      PushesBounded(h.chans, h.users[user], Direct(data));
    }
  }

  lemma StopBounded(h: State)
    requires Bounded(h)
    ensures Bounded(Shutdown(h))
  {
    PushesBounded(h.chans, h.clients, Direct(""));
  }

  lemma StepBounded(h: State, e: Event)
    requires Bounded(h)
    ensures Bounded(Step(h, e))
  {
    if !h.panicked {
      match e
      case Register(c) => if !h.stopped { UpdateBounded(h, c, 0); }
      case Unregister(c, evicted) =>
        if !h.stopped {
          UpdateBounded(if evicted then Hub.Handed(h, c) else h, c, 0);
        }
      case Take(c, count) => UpdateBounded(h, c, count);
      case Send(msg) => if !h.stopped { SendBounded(h, msg); }
      case SendToUser(user, data) => ToUserBounded(h, user, data);
      case Stop => if !h.stopped { StopBounded(h); }
    }
  }

  lemma {:induction false} RunBounded(h: State, es: seq<Event>)
    requires Bounded(h)
    ensures Bounded(Run(h, es))
    decreases |es|
  {
    if es != [] {
      StepBounded(h, es[0]);
      RunBounded(Step(h, es[0]), es[1..]);
    }
  }

  /** What is queued and not taken yet. */
  function Waits(ch: Channel): seq<Item>
    requires ch.taken <= |ch.sent|
  {
    ch.sent[ch.taken..]
  }

  lemma TakingDrains(ch: Channel, count: nat)
    requires ch.taken <= |ch.sent| <= ch.taken + CAPACITY
    ensures |Waits(ch)| <= 256 && (Full(ch) <==> |Waits(ch)| == 256)
    ensures var ch' := Taken(ch, count);
            && ch'.taken <= |ch'.sent| && (0 < count ==> !Full(ch'))
            && Waits(ch') == Waits(ch)[if count <= |Waits(ch)| then count else |Waits(ch)|..]
  {
  }

  /** In every run at most 256 items wait for a client. Its write pump takes what has waited
      longest, and each item it takes frees a place, so that the next broadcast finds room. */
  lemma TakingFreesPlaces(es: seq<Event>, c: Client, count: nat)
    requires c in Run(NEW, es).chans
    ensures var ch, ch' := Run(NEW, es).chans[c], ChannelOf(TakeItems(Run(NEW, es), c, count), c);
            && ch.taken <= |ch.sent| && |Waits(ch)| <= 256 && (Full(ch) <==> |Waits(ch)| == 256)
            && ch'.taken <= |ch'.sent| && (0 < count ==> !Full(ch'))
            && Waits(ch') == Waits(ch)[if count <= |Waits(ch)| then count else |Waits(ch)|..]
  {
    RunBounded(NEW, es);
    TakingDrains(Run(NEW, es).chans[c], count);
  }

  // ----- a slow consumer brings the hub down -----

  predicate Up(h: State, c: Client) {
    !h.panicked && !h.stopped && c in h.clients && c in h.chans
  }

  /** A broadcast to a client with a full queue asks for its eviction. */
  lemma FullQueueIsEvicted(h: State, c: Client, msg: Broadcast)
    requires Sound(h) && Up(h, c) && Addressed(msg, c) && Full(h.chans[c])
    ensures var h' := Step(h, Send(msg)); Sound(h') && Up(h', c) && Pending(h', c)
  {
    BroadcastSound(h, msg);
    TargetsAreClients(h, msg);
    ClientsAreOpen(h, Targets(h, msg));
    assert c in FullAmong(h.chans, Targets(h, msg));
  }

  /** The eviction, and then the read pump's own removal once the connection is
      closed, close the channel twice. */
  lemma SlowConsumerPanics(h: State, c: Client, msg: Broadcast)
    requires Sound(h) && Up(h, c) && Addressed(msg, c) && Full(h.chans[c])
    ensures var h' := Step(h, Send(msg));
            && Orderly(h', Unregister(c, true))
            && Step(Step(h', Unregister(c, true)), Unregister(c, false)).panicked
  {
    FullQueueIsEvicted(h, c, msg);
    EvictionThenReadPumpPanics(Step(h, Send(msg)), c);
  }

  /** The same message n times. */
  function Flood(msg: Broadcast, n: nat): seq<Event> {
    if n == 0 then [] else Flood(msg, n - 1) + [Send(msg)]
  }

  lemma {:induction false} RunConcat(h: State, a: seq<Event>, b: seq<Event>)
    ensures Run(h, a + b) == Run(Run(h, a), b)
    ensures OrderlyRun(h, a + b) <==> OrderlyRun(h, a) && OrderlyRun(Run(h, a), b)
    decreases |a|
  {
    if a == [] {
      assert a + b == b;
    } else {
      assert (a + b)[1..] == a[1..] + b && (a + b)[0] == a[0];
      RunConcat(Step(h, a[0]), a[1..], b);
    }
  }

  lemma OneEvent(h: State, e: Event)
    ensures Run(h, [e]) == Step(h, e) && (OrderlyRun(h, [e]) <==> Orderly(h, e))
  {
    assert [e][1..] == [];
    assert Run(Step(h, e), []) == Step(h, e);
  }

  /** A broadcast to a client that is up and has room. */
  lemma BroadcastFills(h: State, c: Client, msg: Broadcast)
    requires Sound(h) && Up(h, c) && Addressed(msg, c) && !Full(h.chans[c])
    ensures var h' := Step(h, Send(msg));
            && Sound(h') && Up(h', c)
            && h'.chans[c].taken == h.chans[c].taken && |h'.chans[c].sent| == |h.chans[c].sent| + 1
  {
    BroadcastSound(h, msg);
    TargetsAreClients(h, msg);
    ClientsAreOpen(h, Targets(h, msg));
    TargetGetsOrIsEvicted(h, msg, c);
    SendKeeps(h, msg);
  }

  /** c is up, its pump has taken nothing, and n items are queued for it. */
  ghost predicate Waiting(h: State, c: Client, n: nat) {
    Sound(h) && Up(h, c) && h.chans[c].taken == 0 && |h.chans[c].sent| == n
  }

  lemma OneMoreWaits(h: State, c: Client, msg: Broadcast, n: nat)
    requires Waiting(h, c, n) && Addressed(msg, c) && n < CAPACITY
    ensures Waiting(Run(h, [Send(msg)]), c, n + 1) && OrderlyRun(h, [Send(msg)])
  {
    OneEvent(h, Send(msg));
    BroadcastFills(h, c, msg);
  }

  /** A client whose pump takes nothing, after n broadcasts. */
  lemma {:induction false} FloodFills(h: State, c: Client, msg: Broadcast, n: nat)
    requires Waiting(h, c, 0) && Addressed(msg, c) && n <= CAPACITY
    ensures Waiting(Run(h, Flood(msg, n)), c, n) && OrderlyRun(h, Flood(msg, n))
    decreases n
  {
    if n > 0 {
      FloodFills(h, c, msg, n - 1);
      RunConcat(h, Flood(msg, n - 1), [Send(msg)]);
      OneMoreWaits(Run(h, Flood(msg, n - 1)), c, msg, n - 1);
    }
  }

  lemma RegisteredIsUp(c: Client)
    ensures Waiting(Step(NEW, Register(c)), c, 0)
    ensures OrderlyRun(NEW, [Register(c)])
  {
    NewIsSound();
    RegisterSound(NEW, c);
    OneEvent(NEW, Register(c));
  }

  function TwoRemovals(c: Client): seq<Event> {
    [Unregister(c, true)] + [Unregister(c, false)]
  }

  /** A full queue, one more broadcast, and both removals. */
  lemma FullQueueRun(h: State, c: Client, msg: Broadcast)
    requires Sound(h) && Up(h, c) && Addressed(msg, c) && Full(h.chans[c])
    ensures OrderlyRun(h, [Send(msg)] + TwoRemovals(c)) && Run(h, [Send(msg)] + TwoRemovals(c)).panicked
  {
    var h1 := Step(h, Send(msg));
    var h2 := Step(h1, Unregister(c, true));
    SlowConsumerPanics(h, c, msg);
    OneEvent(h, Send(msg));
    OneEvent(h1, Unregister(c, true));
    OneEvent(h2, Unregister(c, false));
    RunConcat(h1, [Unregister(c, true)], [Unregister(c, false)]);
    RunConcat(h, [Send(msg)], TwoRemovals(c));
  }

  /** From the start: a client registers and its pump takes nothing, one broadcast more
      than its queue holds is sent to its room, its eviction is handled, and then its read
      pump's own removal. The run is orderly and ends in a panic. */
  lemma SlowConsumerRun(c: Client, msg: Broadcast)
    requires Addressed(msg, c)
    ensures var es := [Register(c)] + (Flood(msg, CAPACITY) + ([Send(msg)] + TwoRemovals(c)));
            OrderlyRun(NEW, es) && Run(NEW, es).panicked
  {
    var h := Step(NEW, Register(c));
    var rest := [Send(msg)] + TwoRemovals(c);
    RegisteredIsUp(c);
    OneEvent(NEW, Register(c));
    FloodFills(h, c, msg, CAPACITY);
    FullQueueRun(Run(h, Flood(msg, CAPACITY)), c, msg);
    RunConcat(h, Flood(msg, CAPACITY), rest);
    RunConcat(NEW, [Register(c)], Flood(msg, CAPACITY) + rest);
  }
}
