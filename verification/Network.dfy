/** Several websocket nodes behind one pub/sub: how often each client gets a message.
    Pub/sub is reliable and keeps order for each node. */
module Network {
  import opened Hub
  import opened HubTheorems
  import opened HubDelivery
  import Text
  import Uuid
  import Relay
  import MessageSpec
  import MessageReplay

  type Publication = MessageSpec.Publication

  /** The bytes sent for a websocket event, and the raw bytes of a publication. */
  datatype Encoder = Encoder(event: Relay.Event -> string, raw: Relay.Payload -> string)

  /** A node: its hub, the publications its relay has not handled yet, and the
      broadcasts its socket handlers still owe after a successful Send. */
  datatype Node = Node(hub: Hub.State, inbox: seq<Publication>, owed: seq<Broadcast>)

  datatype Origin = Rest | Socket(node: nat)

  datatype NetEvent =
    | Publish(pub: Publication, origin: Origin)
    | RelayOne(node: nat)                  // the relay takes its next publication
    | PayOne(node: nat, k: nat)            // a socket handler broadcasts
    | Local(node: nat, e: Hub.Event)       // anything else at a hub

  function EncodedMessage(enc: Encoder, m: Relay.Message): Broadcast {
    Broadcast(m.room, enc.event(Relay.ReceiveMessage(m)), Nobody)
  }

  /** What the relay makes of a publication, as a hub event. */
  function Relayed(enc: Encoder, pub: Publication): seq<Hub.Event> {
    match Relay.Dispatch(pub.channel, pub.payload)
    case Broadcast(room, event) => [Hub.Send(Broadcast(room, enc.event(event), Nobody))]
    case SendTo(user, payload) => [Hub.SendToUser(user, enc.raw(payload))]
    case Drop => []
  }

  function Owed(enc: Encoder, pub: Publication): seq<Broadcast> {
    if pub.payload.Posted? then [EncodedMessage(enc, pub.payload.msg)] else []
  }

  /** The hub events that e causes at node j, and what is left to do there. */
  function At(enc: Encoder, n: Node, j: nat, e: NetEvent): (Node, seq<Hub.Event>) {
    match e
    case Publish(pub, origin) =>
      (n.(inbox := n.inbox + [pub], owed := n.owed + (if origin == Socket(j) then Owed(enc, pub) else [])), [])
    case RelayOne(i) =>
      if i != j || n.inbox == [] then (n, []) else (n.(inbox := n.inbox[1..]), Relayed(enc, n.inbox[0]))
    case PayOne(i, k) =>
      if i != j || |n.owed| <= k then (n, [])
      else (n.(owed := n.owed[..k] + n.owed[k + 1..]), [Hub.Send(n.owed[k])])
    case Local(i, event) => (n, if i == j then [event] else [])
  }

  function NodeStep(enc: Encoder, n: Node, j: nat, e: NetEvent): Node {
    var (n', events) := At(enc, n, j, e);
    n'.(hub := if events == [] then n.hub else Step(n.hub, events[0]))
  }

  type Net = seq<Node>

  function NetStep(enc: Encoder, net: Net, e: NetEvent): Net {
    seq(|net|, j requires 0 <= j < |net| => NodeStep(enc, net[j], j, e))
  }

  function NetRun(enc: Encoder, net: Net, es: seq<NetEvent>): (r: Net)
    ensures |r| == |net|
    decreases |es|
  {
    if es == [] then net else NetRun(enc, NetStep(enc, net, es[0]), es[1..])
  }

  function NodeRun(enc: Encoder, n: Node, j: nat, es: seq<NetEvent>): Node
    decreases |es|
  {
    if es == [] then n else NodeRun(enc, NodeStep(enc, n, j, es[0]), j, es[1..])
  }

  /** Nodes meet only through the publications. */
  lemma {:induction false} NetIsNodes(enc: Encoder, net: Net, es: seq<NetEvent>, j: nat)
    requires j < |net|
    ensures NetRun(enc, net, es)[j] == NodeRun(enc, net[j], j, es)
    decreases |es|
  {
    if es != [] {
      NetIsNodes(enc, NetStep(enc, net, es[0]), es[1..], j);
    }
  }

  // ----- conservation: every broadcast due is owed, waiting or handled -----

  function InLog(log: seq<Broadcast>, b: Broadcast): nat {
    if log == [] then 0
    else InLog(log[..|log| - 1], b) + (if log[|log| - 1] == b then 1 else 0)
  }

  function InInbox(enc: Encoder, inbox: seq<Publication>, b: Broadcast): nat {
    if inbox == [] then 0
    else (if Relayed(enc, inbox[0]) == [Hub.Send(b)] then 1 else 0) + InInbox(enc, inbox[1..], b)
  }

  /** How many broadcasts of b an event makes due at node j. */
  function Due(enc: Encoder, e: NetEvent, j: nat, b: Broadcast): nat {
    match e
    case Publish(pub, origin) =>
      (if Relayed(enc, pub) == [Hub.Send(b)] then 1 else 0)
      + (if origin == Socket(j) && Owed(enc, pub) == [b] then 1 else 0)
    case Local(i, event) => if i == j && event == Hub.Send(b) then 1 else 0
    case _ => 0
  }

  function DueInAll(enc: Encoder, es: seq<NetEvent>, j: nat, b: Broadcast): nat
    decreases |es|
  {
    if es == [] then 0 else Due(enc, es[0], j, b) + DueInAll(enc, es[1..], j, b)
  }

  function Balance(enc: Encoder, n: Node, b: Broadcast): nat {
    InLog(n.hub.log, b) + InInbox(enc, n.inbox, b) + InLog(n.owed, b)
  }

  lemma {:induction false} InLogConcat(s: seq<Broadcast>, t: seq<Broadcast>, b: Broadcast)
    ensures InLog(s + t, b) == InLog(s, b) + InLog(t, b)
    decreases |t|
  {
    if t == [] {
      assert s + t == s;
    } else {
      assert (s + t)[..|s + t| - 1] == s + t[..|t| - 1];
      InLogConcat(s, t[..|t| - 1], b);
    }
  }

  lemma InLogOne(x: Broadcast, b: Broadcast)
    ensures InLog([x], b) == if x == b then 1 else 0
  {
    assert [x][..0] == [];
  }

  lemma {:induction false} InInboxConcat(enc: Encoder, s: seq<Publication>, t: seq<Publication>, b: Broadcast)
    ensures InInbox(enc, s + t, b) == InInbox(enc, s, b) + InInbox(enc, t, b)
  {
    if s == [] {
      assert s + t == t;
    } else {
      assert (s + t)[1..] == s[1..] + t;
      InInboxConcat(enc, s[1..], t, b);
    }
  }

  predicate Alive(h: Hub.State) {
    !h.panicked && !h.stopped
  }

  lemma StepLog(h: Hub.State, e: Hub.Event)
    requires Alive(h) && Alive(Step(h, e))
    ensures Step(h, e).log == if e.Send? then h.log + [e.msg] else h.log
  {
    match e
    case Send(msg) => assert Step(h, e) == SendToRoom(h, msg);
    case Register(c) => assert Step(h, e) == AddClient(h, c);
    case Unregister(c, evicted) => assert Step(h, e).log == h.log;
    case SendToUser(user, data) => assert Step(h, e) == ToUser(h, user, data);
    case Take(c, count) => assert Step(h, e) == TakeItems(h, c, count);
    case Stop => assert Step(h, e) == Shutdown(h);
  }

  /** At a living hub, exactly the broadcasts join the log. */
  lemma LogCounts(log: seq<Broadcast>, e: Hub.Event, b: Broadcast)
    ensures InLog(if e.Send? then log + [e.msg] else log, b)
         == InLog(log, b) + (if e == Hub.Send(b) then 1 else 0)
  {
    if e.Send? {
      InLogConcat(log, [e.msg], b);
      InLogOne(e.msg, b);
    }
  }

  lemma DeadStaysDead(h: Hub.State, e: Hub.Event)
    requires !Alive(h)
    ensures !Alive(Step(h, e))
  {
  }

  lemma RemoveOne(owed: seq<Broadcast>, k: nat, b: Broadcast)
    requires k < |owed|
    ensures InLog(owed[..k] + owed[k + 1..], b) + (if owed[k] == b then 1 else 0) == InLog(owed, b)
  {
    assert owed == owed[..k] + ([owed[k]] + owed[k + 1..]);
    InLogConcat(owed[..k], [owed[k]] + owed[k + 1..], b);
    InLogConcat([owed[k]], owed[k + 1..], b);
    InLogConcat(owed[..k], owed[k + 1..], b);
    InLogOne(owed[k], b);
  }

  /** What leaves the inbox or the owed list is what the hub is asked to broadcast. */
  lemma AtBalance(enc: Encoder, n: Node, j: nat, e: NetEvent, b: Broadcast)
    ensures var (n', events) := At(enc, n, j, e);
            && n'.hub == n.hub
            && InInbox(enc, n'.inbox, b) + InLog(n'.owed, b) + (if events == [Hub.Send(b)] then 1 else 0)
            == InInbox(enc, n.inbox, b) + InLog(n.owed, b) + Due(enc, e, j, b)
  {
    match e
    case Publish(pub, origin) =>
      InInboxConcat(enc, n.inbox, [pub], b);
      assert [pub][1..] == [];
      var owing := if origin == Socket(j) then Owed(enc, pub) else [];
      InLogConcat(n.owed, owing, b);
      if owing != [] {
        InLogOne(owing[0], b);
      }
    case RelayOne(i) =>
    case PayOne(i, k) =>
      if i == j && k < |n.owed| {
        RemoveOne(n.owed, k, b);
      }
    case Local(_, _) =>
  }

  lemma AtMostOneEvent(enc: Encoder, n: Node, j: nat, e: NetEvent)
    ensures |At(enc, n, j, e).1| <= 1
  {
  }

  /** One hub event, against the log. */
  lemma HubStepLogs(h: Hub.State, e: Hub.Event, b: Broadcast)
    requires Alive(Step(h, e))
    ensures Alive(h) && h.log <= Step(h, e).log
    ensures InLog(Step(h, e).log, b) == InLog(h.log, b) + (if e == Hub.Send(b) then 1 else 0)
  {
    if !Alive(h) {
      DeadStaysDead(h, e);
    }
    StepLog(h, e);
    LogCounts(h.log, e, b);
  }

  lemma StepBalance(enc: Encoder, n: Node, j: nat, e: NetEvent, b: Broadcast)
    requires Alive(NodeStep(enc, n, j, e).hub)
    ensures Alive(n.hub)
    ensures Balance(enc, NodeStep(enc, n, j, e), b) == Balance(enc, n, b) + Due(enc, e, j, b)
    ensures n.hub.log <= NodeStep(enc, n, j, e).hub.log
  {
    AtBalance(enc, n, j, e, b);
    AtMostOneEvent(enc, n, j, e);
    EventBalance(enc, At(enc, n, j, e).0, n.hub, At(enc, n, j, e).1, b);
  }

  /** What a node's hub does with the events it is handed. */
  lemma EventBalance(enc: Encoder, n: Node, h: Hub.State, events: seq<Hub.Event>, b: Broadcast)
    requires |events| <= 1
    requires Alive(if events == [] then h else Step(h, events[0]))
    ensures var h' := if events == [] then h else Step(h, events[0]);
            && Alive(h) && h.log <= h'.log
            && InLog(h'.log, b) == InLog(h.log, b) + (if events == [Hub.Send(b)] then 1 else 0)
  {
    if events != [] {
      HubStepLogs(h, events[0], b);
    }
  }

  lemma {:induction false} RunBalance(enc: Encoder, n: Node, j: nat, es: seq<NetEvent>, b: Broadcast)
    requires Alive(NodeRun(enc, n, j, es).hub)
    ensures Alive(n.hub)
    ensures Balance(enc, NodeRun(enc, n, j, es), b) == Balance(enc, n, b) + DueInAll(enc, es, j, b)
    ensures n.hub.log <= NodeRun(enc, n, j, es).hub.log
    decreases |es|
  {
    if es != [] {
      RunBalance(enc, NodeStep(enc, n, j, es[0]), j, es[1..], b);
      StepBalance(enc, n, j, es[0], b);
    }
  }

  // ----- hub invariants along a node's run -----

  predicate OrderlyAt(enc: Encoder, n: Node, j: nat, e: NetEvent) {
    var events := At(enc, n, j, e).1;
    events == [] || Orderly(n.hub, events[0])
  }

  predicate OrderlyNode(enc: Encoder, n: Node, j: nat, es: seq<NetEvent>)
    decreases |es|
  {
    es == [] || (OrderlyAt(enc, n, j, es[0]) && OrderlyNode(enc, NodeStep(enc, n, j, es[0]), j, es[1..]))
  }

  /** A registered client keeps its place in the log. */
  predicate KeepsPlace(h: Hub.State, h': Hub.State, c: Client) {
    c in h.since ==> c in h'.since && h'.since[c] == h.since[c]
  }

  lemma StepKeepsPlace(h: Hub.State, e: Hub.Event, c: Client)
    requires Sound(h) && Orderly(h, e)
    ensures KeepsPlace(h, Step(h, e), c)
  {
  }

  lemma {:induction false} NodeRunServes(enc: Encoder, n: Node, j: nat, es: seq<NetEvent>, c: Client)
    requires Sound(n.hub) && Served(n.hub, c) && OrderlyNode(enc, n, j, es)
    ensures var n' := NodeRun(enc, n, j, es);
            Sound(n'.hub) && Served(n'.hub, c) && KeepsPlace(n.hub, n'.hub, c)
    decreases |es|
  {
    if es != [] {
      var (n', events) := At(enc, n, j, es[0]);
      AtBalance(enc, n, j, es[0], Broadcast("", "", Nobody));
      if events != [] {
        StepSound(n.hub, events[0]);
        StepServes(n.hub, events[0], c);
        StepKeepsPlace(n.hub, events[0], c);
      }
      NodeRunServes(enc, NodeStep(enc, n, j, es[0]), j, es[1..], c);
    }
  }

  // ----- copies of one message in one queue -----

  /** How many of the events stem from a broadcast of b. */
  function Copies(events: seq<Item>, log: seq<Broadcast>, b: Broadcast): nat {
    if events == [] then 0
    else
      var last := events[|events| - 1];
      Copies(events[..|events| - 1], log, b)
      + (if last.FromRoom? && last.n < |log| && log[last.n] == b then 1 else 0)
  }

  lemma CopiesSnoc(events: seq<Item>, item: Item, log: seq<Broadcast>, b: Broadcast)
    requires item.FromRoom? && item.n < |log|
    ensures Copies(events + [item], log, b) == Copies(events, log, b) + (if log[item.n] == b then 1 else 0)
  {
    assert (events + [item])[..|events|] == events;
  }

  lemma OneMoreLogged(log: seq<Broadcast>, p: seq<Broadcast>, x: Broadcast, since: nat, c: Client, b: Broadcast)
    requires p + [x] <= log && since <= |p| && Addressed(b, c)
    ensures Copies(Expected(p + [x], since, c), log, b)
         == Copies(Expected(p, since, c), log, b) + (if x == b then 1 else 0)
    ensures InLog(p + [x], b) == InLog(p, b) + (if x == b then 1 else 0)
  {
    assert log[|p|] == (p + [x])[|p|] == x;
    ExpectedGrows(p, x, since, c);
    InLogConcat(p, [x], b);
    InLogOne(x, b);
    var front := Expected(p, since, c);
    CopiesSnoc(front, FromRoom(|p|, x.data), log, b);
    assert front + [] == front;
  }

  /** p is a prefix of the log. */
  lemma {:induction false} CopiesExpected(log: seq<Broadcast>, p: seq<Broadcast>, since: nat, c: Client, b: Broadcast)
    requires p <= log && since <= |p| && Addressed(b, c)
    ensures Copies(Expected(p, since, c), log, b) + InLog(p[..since], b) == InLog(p, b)
    decreases |p|
  {
    if since < |p| {
      var front, x := p[..|p| - 1], p[|p| - 1];
      assert p == front + [x] && front[..since] == p[..since];
      CopiesExpected(log, front, since, c, b);
      OneMoreLogged(log, front, x, since, c, b);
    } else {
      assert p[..since] == p;
    }
  }

  /** What is not addressed to c never gets into its queue. */
  lemma {:induction false} NoCopies(events: seq<Item>, log: seq<Broadcast>, since: nat, c: Client, b: Broadcast)
    requires InBroadcastOrder(events, log, since, c) && !Addressed(b, c)
    ensures Copies(events, log, b) == 0
  {
    if events != [] {
      var last := events[|events| - 1];
      assert Addressed(log[last.n], c);
      NoCopies(events[..|events| - 1], log, since, c, b);
    }
  }

  const FRESH_NODE := Node(NEW, [], [])

  function Publishing(m: Relay.Message, origin: Origin): NetEvent {
    Publish(MessageSpec.Publication(Relay.RoomChannel(m.room), Relay.Posted(m)), origin)
  }

  /** In before, then the publication of m, then after, nothing but the publication
      makes m's broadcast due at node j. */
  predicate OnlyOnce(enc: Encoder, before: seq<NetEvent>, m: Relay.Message, after: seq<NetEvent>, j: nat) {
    DueInAll(enc, before, j, EncodedMessage(enc, m)) == 0 && DueInAll(enc, after, j, EncodedMessage(enc, m)) == 0
  }

  /** The node lives and has worked off its inbox and its debts, as far as m goes. */
  predicate WorkedOff(enc: Encoder, n: Node, m: Relay.Message) {
    Alive(n.hub) && InInbox(enc, n.inbox, EncodedMessage(enc, m)) == 0 && InLog(n.owed, EncodedMessage(enc, m)) == 0
  }

  function Times(origin: Origin, j: nat): nat {
    if origin == Socket(j) then 2 else 1
  }

  lemma NodeBroadcasts(enc: Encoder, before: seq<NetEvent>, m: Relay.Message, origin: Origin,
                       after: seq<NetEvent>, j: nat)
    requires Uuid.UuidText(m.room) && m.room != "" && OnlyOnce(enc, before, m, after, j)
    requires WorkedOff(enc, NodeRun(enc, FRESH_NODE, j, before + ([Publishing(m, origin)] + after)), m)
    ensures var n1 := NodeRun(enc, FRESH_NODE, j, before);
            var n := NodeRun(enc, FRESH_NODE, j, before + ([Publishing(m, origin)] + after));
            && InLog(n.hub.log, EncodedMessage(enc, m)) == Times(origin, j)
            && InLog(n1.hub.log, EncodedMessage(enc, m)) == 0 && n1.hub.log <= n.hub.log
  {
    var b := EncodedMessage(enc, m);
    var rest := [Publishing(m, origin)] + after;
    var n1 := NodeRun(enc, FRESH_NODE, j, before);
    RunSplits(enc, FRESH_NODE, j, before, rest);
    assert rest[1..] == after;
    PublicationIsDue(enc, m, origin, j);
    RunBalance(enc, n1, j, rest, b);
    RunBalance(enc, FRESH_NODE, j, before, b);
  }

  lemma NodeServes(enc: Encoder, before: seq<NetEvent>, rest: seq<NetEvent>, j: nat, c: Client)
    requires OrderlyNode(enc, FRESH_NODE, j, before + rest)
    ensures var h1 := NodeRun(enc, FRESH_NODE, j, before).hub;
            var h := NodeRun(enc, FRESH_NODE, j, before + rest).hub;
            Served(h1, c) && Served(h, c) && KeepsPlace(h1, h, c)
  {
    RunSplits(enc, FRESH_NODE, j, before, rest);
    NewIsSound();
    NodeRunServes(enc, FRESH_NODE, j, before, c);
    NodeRunServes(enc, NodeRun(enc, FRESH_NODE, j, before), j, rest, c);
  }

  /** What a run publishes, in order. */
  function PublishedAll(es: seq<NetEvent>): seq<Publication> {
    if es == [] then []
    else (if es[0].Publish? then [es[0].pub] else []) + PublishedAll(es[1..])
  }

  /** What node j's relay takes from its inbox, in order. */
  function RelayedBy(enc: Encoder, n: Node, j: nat, es: seq<NetEvent>): seq<Publication>
    decreases |es|
  {
    if es == [] then []
    else
      (if es[0] == RelayOne(j) && n.inbox != [] then [n.inbox[0]] else [])
      + RelayedBy(enc, NodeStep(enc, n, j, es[0]), j, es[1..])
  }

  /** Every relay takes every publication once and in the order they were published. */
  lemma {:induction false} RelayedInOrder(enc: Encoder, n: Node, j: nat, es: seq<NetEvent>)
    ensures n.inbox + PublishedAll(es) == RelayedBy(enc, n, j, es) + NodeRun(enc, n, j, es).inbox
    decreases |es|
  {
    if es != [] {
      var n' := NodeStep(enc, n, j, es[0]);
      RelayedInOrder(enc, n', j, es[1..]);
      var pub := if es[0].Publish? then [es[0].pub] else [];
      var took := if es[0] == RelayOne(j) && n.inbox != [] then [n.inbox[0]] else [];
      assert n.inbox + pub == took + n'.inbox;
      Text.Associate(n.inbox, pub, PublishedAll(es[1..]));
      Text.Associate(took, n'.inbox, PublishedAll(es[1..]));
      Text.Associate(took, RelayedBy(enc, n', j, es[1..]), NodeRun(enc, n', j, es[1..]).inbox);
    }
  }

  /** What is published for a user is queued, as it was published, for each of that user's
      registered clients at a node, and for no others. */
  lemma UserPublicationsArrive(enc: Encoder, h: Hub.State, user: string, payload: Relay.Payload, c: Client)
    requires Uuid.UuidText(user)
    requires Sound(h) && Alive(h) && NoOverflow(h, Hub.SendToUser(user, enc.raw(payload)))
    ensures Relayed(enc, MessageSpec.Publication("users:" + user + ":events", payload))
         == [Hub.SendToUser(user, enc.raw(payload))]
    ensures DirectsOf(Step(h, Hub.SendToUser(user, enc.raw(payload))), c)
         == DirectsOf(h, c) + (if c in h.clients && c.user == user then [enc.raw(payload)] else [])
  {
    Relay.UuidChannels(user);
    assert Relay.UserChannel(user) == "users:" + user + ":events";
    StepDirects(h, Hub.SendToUser(user, enc.raw(payload)), c);
  }

  // ----- why nothing else makes the same broadcast due -----

  function PublishedBy(e: NetEvent): seq<Publication> {
    if e.Publish? && (e.pub.payload.Posted? || e.pub.payload.Deleted?) then [e.pub] else []
  }

  /** What a run publishes of messages, in order. */
  function PublishedIn(es: seq<NetEvent>): seq<Publication> {
    if es == [] then [] else PublishedBy(es[0]) + PublishedIn(es[1..])
  }

  lemma {:induction false} PublishedConcat(a: seq<NetEvent>, b: seq<NetEvent>)
    ensures PublishedIn(a + b) == PublishedIn(a) + PublishedIn(b)
  {
    if a == [] {
      assert a + b == b;
    } else {
      assert (a + b)[1..] == a[1..] + b;
      PublishedConcat(a[1..], b);
      Text.Associate(PublishedBy(a[0]), PublishedIn(a[1..]), PublishedIn(b));
    }
  }

  /** Different events are encoded differently. */
  ghost predicate Injective(enc: Encoder) {
    forall x, y :: enc.event(x) == enc.event(y) ==> x == y
  }

  /** What is broadcast besides messages and deletions are typing notices, which pass
      over their sender. */
  predicate NoticesExclude(es: seq<NetEvent>) {
    forall i :: 0 <= i < |es| && es[i].Local? && es[i].e.Send? ==> es[i].e.msg.exclude != Nobody
  }

  /** Nothing but a publication of m makes its broadcast due. */
  lemma DueMeansPublished(enc: Encoder, e: NetEvent, j: nat, m: Relay.Message)
    requires Injective(enc) && (e.Publish? ==> e.pub.payload != Relay.Posted(m))
    requires e.Local? && e.e.Send? ==> e.e.msg.exclude != Nobody
    ensures Due(enc, e, j, EncodedMessage(enc, m)) == 0
  {
    var b := EncodedMessage(enc, m);
    if e.Publish? {
      RelayedIsPublished(enc, e.pub, m);
      OwedIsPublished(enc, e.pub, m);
    }
  }

  lemma OwedIsPublished(enc: Encoder, pub: Publication, m: Relay.Message)
    requires Injective(enc)
    ensures Owed(enc, pub) == [EncodedMessage(enc, m)] ==> pub.payload == Relay.Posted(m)
  {
    if Owed(enc, pub) == [EncodedMessage(enc, m)] {
      assert Owed(enc, pub)[0] == EncodedMessage(enc, m);
      assert enc.event(Relay.ReceiveMessage(pub.payload.msg)) == enc.event(Relay.ReceiveMessage(m));
      assert Relay.ReceiveMessage(pub.payload.msg) == Relay.ReceiveMessage(m);
    }
  }

  lemma RelayedIsPublished(enc: Encoder, pub: Publication, m: Relay.Message)
    requires Injective(enc)
    ensures Relayed(enc, pub) == [Hub.Send(EncodedMessage(enc, m))] ==> pub.payload == Relay.Posted(m)
  {
    var action := Relay.Dispatch(pub.channel, pub.payload);
    if Relayed(enc, pub) == [Hub.Send(EncodedMessage(enc, m))] {
      assert Relayed(enc, pub)[0] == Hub.Send(EncodedMessage(enc, m));
      assert enc.event(action.event) == enc.event(Relay.ReceiveMessage(m));
      assert action.event == Relay.ReceiveMessage(m);
    }
  }

  predicate NeverPosts(pubs: seq<Publication>, m: Relay.Message) {
    forall i :: 0 <= i < |pubs| ==> pubs[i].payload != Relay.Posted(m)
  }

  /** A run that does not publish m makes nothing of it due. */
  lemma {:induction false} NothingDue(enc: Encoder, es: seq<NetEvent>, j: nat, m: Relay.Message)
    requires Injective(enc) && NoticesExclude(es) && NeverPosts(PublishedIn(es), m)
    ensures DueInAll(enc, es, j, EncodedMessage(enc, m)) == 0
    decreases |es|
  {
    if es != [] {
      var first, rest := PublishedBy(es[0]), PublishedIn(es[1..]);
      assert PublishedIn(es) == first + rest;
      assert forall i :: 0 <= i < |rest| ==> rest[i] == PublishedIn(es)[i + |first|];
      assert first != [] ==> PublishedIn(es)[0] == es[0].pub;
      assert forall i :: 0 <= i < |es[1..]| ==> es[1..][i] == es[i + 1];
      NothingDue(enc, es[1..], j, m);
      DueMeansPublished(enc, es[0], j, m);
    }
  }

  /** The run publishes of messages what the message service does, as far as it has come. */
  ghost predicate Publishes(es: seq<NetEvent>, ops: seq<MessageSpec.Op>) {
    && MessageSpec.FreshRun(MessageSpec.EMPTY, ops) && MessageReplay.StampedRun(MessageSpec.EMPTY, ops)
    && PublishedIn(es) <= MessageSpec.Run(MessageSpec.EMPTY, ops).log
  }

  /** In the log of a run, what stands before and after a posted message differs from it. */
  lemma EarlierDiffer(ops: seq<MessageSpec.Op>, a: seq<Publication>, p: Publication)
    requires MessageSpec.FreshRun(MessageSpec.EMPTY, ops) && MessageReplay.StampedRun(MessageSpec.EMPTY, ops)
    requires a + [p] <= MessageSpec.Run(MessageSpec.EMPTY, ops).log && p.payload.Posted?
    ensures NeverPosts(a, p.payload.msg)
  {
    var log := MessageSpec.Run(MessageSpec.EMPTY, ops).log;
    assert log[|a|] == (a + [p])[|a|] == p;
    forall i | 0 <= i < |a| ensures a[i].payload != p.payload {
      assert log[i] == (a + [p])[i] == a[i];
      MessageReplay.PublicationsDiffer(ops, i, |a|);
    }
  }

  lemma LaterDiffer(ops: seq<MessageSpec.Op>, a: seq<Publication>, p: Publication, b: seq<Publication>)
    requires MessageSpec.FreshRun(MessageSpec.EMPTY, ops) && MessageReplay.StampedRun(MessageSpec.EMPTY, ops)
    requires a + [p] + b <= MessageSpec.Run(MessageSpec.EMPTY, ops).log && p.payload.Posted?
    ensures NeverPosts(b, p.payload.msg)
  {
    var log, k := MessageSpec.Run(MessageSpec.EMPTY, ops).log, |a|;
    assert log[k] == (a + [p] + b)[k] == p;
    forall i | 0 <= i < |b| && b[i].payload.Posted? ensures b[i].payload != p.payload {
      assert log[k + 1 + i] == (a + [p] + b)[k + 1 + i] == b[i];
      MessageReplay.PublicationsDiffer(ops, k, k + 1 + i);
    }
  }

  lemma PublishedOnce(before: seq<NetEvent>, m: Relay.Message, origin: Origin, after: seq<NetEvent>,
                      ops: seq<MessageSpec.Op>)
    requires Publishes(before + ([Publishing(m, origin)] + after), ops)
    ensures NeverPosts(PublishedIn(before), m) && NeverPosts(PublishedIn(after), m)
  {
    var here := Publishing(m, origin);
    PublishedConcat(before, [here] + after);
    assert ([here] + after)[1..] == after;
    var a, b := PublishedIn(before), PublishedIn(after);
    Text.Associate(a, [here.pub], b);
    assert a + [here.pub] <= a + [here.pub] + b;
    EarlierDiffer(ops, a, here.pub);
    LaterDiffer(ops, a, here.pub, b);
  }

  lemma DueOnce(enc: Encoder, before: seq<NetEvent>, m: Relay.Message, origin: Origin, after: seq<NetEvent>,
                ops: seq<MessageSpec.Op>, j: nat)
    requires Injective(enc) && NoticesExclude(before) && NoticesExclude(after)
    requires Publishes(before + ([Publishing(m, origin)] + after), ops)
    ensures OnlyOnce(enc, before, m, after, j)
  {
    PublishedOnce(before, m, origin, after, ops);
    NothingDue(enc, before, j, m);
    NothingDue(enc, after, j, m);
  }

  /** The message service of a network publishes m at one moment of a run of any number of
      nodes. Once node j has worked off what it owes, m was broadcast there once, or twice
      if it was sent over one of its sockets. A client that was registered before has had it
      queued as often if it joined under the very text m names its room by, is still
      registered and awaits no removal; under any other text it has had it never. */
  lemma Fanout(enc: Encoder, net: Net, before: seq<NetEvent>, m: Relay.Message, origin: Origin,
               after: seq<NetEvent>, ops: seq<MessageSpec.Op>, j: nat, c: Client)
    requires j < |net| && net[j] == FRESH_NODE
    requires Uuid.UuidText(m.room) && m.room != ""
    requires Injective(enc) && NoticesExclude(before) && NoticesExclude(after)
    requires Publishes(before + ([Publishing(m, origin)] + after), ops)
    requires OrderlyNode(enc, FRESH_NODE, j, before + ([Publishing(m, origin)] + after))
    requires WorkedOff(enc, NetRun(enc, net, before + ([Publishing(m, origin)] + after))[j], m)
    ensures var h1 := NetRun(enc, net, before)[j].hub;
            var h := NetRun(enc, net, before + ([Publishing(m, origin)] + after))[j].hub;
            && InLog(h.log, EncodedMessage(enc, m)) == Times(origin, j)
            && (c in h1.since && c in h.clients && !Pending(h, c) && m.room in c.rooms ==>
                  Copies(Received(h, c), h.log, EncodedMessage(enc, m)) == Times(origin, j))
            && (c in h1.since && m.room !in c.rooms ==>
                  Copies(Received(h, c), h.log, EncodedMessage(enc, m)) == 0)
  {
    var rest := [Publishing(m, origin)] + after;
    DueOnce(enc, before, m, origin, after, ops, j);
    NetIsNodes(enc, net, before, j);
    NetIsNodes(enc, net, before + rest, j);
    NodeBroadcasts(enc, before, m, origin, after, j);
    NodeServes(enc, before, rest, j, c);
    var h1, h := NetRun(enc, net, before)[j].hub, NetRun(enc, net, before + rest)[j].hub;
    if c in h1.since && m.room !in c.rooms {
      NoCopies(Received(h, c), h.log, h.since[c], c, EncodedMessage(enc, m));
    } else if c in h1.since && c in h.clients && !Pending(h, c) {
      CopiesOfAll(h1, h, c, EncodedMessage(enc, m));
    }
  }

  lemma CopiesOfAll(h1: Hub.State, h: Hub.State, c: Client, b: Broadcast)
    requires h1.log <= h.log && InLog(h1.log, b) == 0 && Addressed(b, c)
    requires Served(h1, c) && Served(h, c) && c in h1.since && KeepsPlace(h1, h, c)
    requires c in h.clients && !Pending(h, c)
    ensures Copies(Received(h, c), h.log, b) == InLog(h.log, b)
  {
    var since := h.since[c];
    CopiesExpected(h.log, h.log, since, c, b);
    assert h1.log == h1.log[..since] + h1.log[since..] && h.log[..since] == h1.log[..since];
    InLogConcat(h1.log[..since], h1.log[since..], b);
  }

  lemma PublicationIsDue(enc: Encoder, m: Relay.Message, origin: Origin, j: nat)
    requires Uuid.UuidText(m.room) && m.room != ""
    ensures Due(enc, Publishing(m, origin), j, EncodedMessage(enc, m)) == Times(origin, j)
  {
    Relay.RoomPublicationsArrive(m.room, Relay.Posted(m));
  }

  lemma {:induction false} RunSplits(enc: Encoder, n: Node, j: nat, a: seq<NetEvent>, b: seq<NetEvent>)
    ensures NodeRun(enc, n, j, a + b) == NodeRun(enc, NodeRun(enc, n, j, a), j, b)
    ensures OrderlyNode(enc, n, j, a + b) <==>
            OrderlyNode(enc, n, j, a) && OrderlyNode(enc, NodeRun(enc, n, j, a), j, b)
    decreases |a|
  {
    if a == [] {
      assert a + b == b;
    } else {
      assert (a + b)[1..] == a[1..] + b;
      RunSplits(enc, NodeStep(enc, n, j, a[0]), j, a[1..], b);
    }
  }
}
