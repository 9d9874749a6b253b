/** What a connected client can make the server do. */
module ClientEvents {
  import opened Text
  import opened Uuid
  import RoomSpec
  import Relay
  import MessageSpec
  import MessageReplay
  import MessageAnswers
  import opened Hub
  import opened HubTheorems
  import opened HubDelivery
  import Network

  /** handleSendMessage: the state of the message service afterwards, and the
      broadcast handed to the hub, if any. */
  function OnSend(enc: Network.Encoder, c: Client, s: MessageSpec.State, room: string, content: string,
                  attachments: nat, id: string, now: int, failAt: nat, fate: MessageSpec.PublishFate)
    : (MessageSpec.State, seq<Broadcast>)
  {
    var roomID := TrimSpace(room);
    if roomID == "" || roomID !in c.rooms then (s, [])
    else
      var op := MessageSpec.Send(roomID, c.user, TrimSpace(content), attachments, id, now, failAt, fate);
      var (s', r) := MessageSpec.ApplySend(s, op);
      (s', if r.Ok? then [Network.EncodedMessage(enc, r.value)] else [])
  }

  /** handleTypingEvent: a notice to the room named, or to the client's only room. */
  function OnTyping(c: Client, room: string, notice: string): seq<Broadcast> {
    var named := TrimSpace(room);
    var roomID := if named == "" && |c.rooms| == 1 then c.rooms[0] else named;
    if (named == "" && |c.rooms| != 1) || roomID !in c.rooms then []
    else [Broadcast(roomID, notice, Only(c))]
  }

  /** The row names the client's user and one of its rooms, each by its id. */
  predicate WrittenBy(row: Relay.Message, c: Client) {
    Canon(c.user) == Some(row.sender) && exists room :: room in c.rooms && Canon(room) == Some(row.room)
  }

  /** Over a socket a user writes only as itself and only into its rooms; nothing is
      broadcast that was not stored, and what is broadcast is what was stored, except
      that it spells room and user as the client was given them and has its times in
      nanoseconds. */
  lemma SocketsStayInTheirRooms(enc: Network.Encoder, c: Client, s: MessageSpec.State, room: string, content: string,
                                attachments: nat, id: string, now: int, failAt: nat, fate: MessageSpec.PublishFate)
    ensures var (s', sent) := OnSend(enc, c, s, room, content, attachments, id, now, failAt, fate);
            && (forall i :: i in s'.table && (i !in s.table || s'.table[i] != s.table[i]) ==>
                  i == id && WrittenBy(s'.table[i], c))
            && (sent != [] ==>
                  && id in s'.table
                  && var row := s'.table[id];
                     var asSent := row.(room := TrimSpace(room), sender := c.user, created := now, updated := now);
                     sent == [Network.EncodedMessage(enc, asSent)])
            && (sent != [] && Canonical(TrimSpace(room)) && Canonical(c.user) && now == MessageSpec.Micros(now) ==>
                  sent == [Network.EncodedMessage(enc, s'.table[id])])
  {
    var roomID := TrimSpace(room);
    if roomID != "" && roomID in c.rooms {
      SentIsStored(s, MessageSpec.Send(roomID, c.user, TrimSpace(content), attachments, id, now, failAt, fate));
    }
  }

  /** The Send that a socket's message makes. */
  function SendOf(c: Client, room: string, content: string, attachments: nat, id: string, now: int, failAt: nat,
                  fate: MessageSpec.PublishFate): MessageSpec.Op
  {
    MessageSpec.Send(TrimSpace(room), c.user, TrimSpace(content), attachments, id, now, failAt, fate)
  }

  /** A socket's message becomes a Send exactly if it names one of the client's rooms, and is
      broadcast exactly if that is accepted and acknowledged: to the room named, to its own
      sender too, and with the trimmed content. */
  lemma SentAsWritten(enc: Network.Encoder, c: Client, s: MessageSpec.State, room: string, content: string,
                      attachments: nat, id: string, now: int, failAt: nat, fate: MessageSpec.PublishFate)
    ensures var (s', sent) := OnSend(enc, c, s, room, content, attachments, id, now, failAt, fate);
            var op := SendOf(c, room, content, attachments, id, now, failAt, fate);
            if TrimSpace(room) == "" || TrimSpace(room) !in c.rooms then s' == s && sent == []
            else
              && s' == MessageSpec.ApplySend(s, op).0
              && sent == if !MessageReplay.Accepted(op) || !MessageAnswers.Acknowledged(fate) then []
                         else
                           var words := TrimSpace(content);
                           var msg := Relay.Message(id, TrimSpace(room), c.user, words, Relay.SENT, now, now);
                           [Broadcast(TrimSpace(room), enc.event(Relay.ReceiveMessage(msg)), Nobody)]
  {
    TrimSpaceIdempotent(content);
    MessageAnswers.SendDoesExactly(s, SendOf(c, room, content, attachments, id, now, failAt, fate));
  }

  /** A notice goes out exactly if the text names one of the client's rooms, or is blank and
      the client has but one; it goes to that room and passes over the client. */
  lemma TypingIsNoticed(c: Client, room: string, notice: string)
    ensures OnTyping(c, room, notice)
         == if TrimSpace(room) != "" && TrimSpace(room) in c.rooms then [Broadcast(TrimSpace(room), notice, Only(c))]
            else if TrimSpace(room) == "" && |c.rooms| == 1 then [Broadcast(c.rooms[0], notice, Only(c))]
            else []
  {
  }

  lemma SentIsStored(s: MessageSpec.State, op: MessageSpec.Op)
    requires op.Send?
    ensures var (s', r) := MessageSpec.ApplySend(s, op);
            var msg := MessageSpec.Composed(op);
            var row := MessageSpec.RowOf(msg);
            && (s'.table == s.table || (row.Some? && s'.table == s.table[op.id := row.value]))
            && (r.Ok? ==> r.value == msg && row.Some? && s'.table == s.table[op.id := row.value])
  {
    var msg := MessageSpec.Composed(op);
    var row := MessageSpec.RowOf(msg);
    MessageReplay.SendAnswers(s, op);
    if MessageReplay.Accepted(op) {
      AnnounceAnswers(s.(table := s.table[op.id := row.value]), op.id, op.room, Relay.Posted(msg), op.fate, msg);
    }
  }

  /** What is logged is the message as composed; it is answered if that is acknowledged. */
  lemma SentIsLogged(s: MessageSpec.State, op: MessageSpec.Op)
    requires op.Send?
    ensures var (s', r) := MessageSpec.ApplySend(s, op);
            var pub := MessageSpec.Publication(Relay.RoomChannel(op.room), Relay.Posted(MessageSpec.Composed(op)));
            && (s'.log == s.log || s'.log == s.log + [pub])
            && (s'.log != s.log ==> (r.Ok? <==> op.fate.Published?))
            && (r.Ok? ==> r.value == MessageSpec.Composed(op))
  {
    MessageReplay.SendAnswers(s, op);
  }

  lemma AnnounceAnswers(s: MessageSpec.State, id: string, room: string, payload: Relay.Payload,
                        fate: MessageSpec.PublishFate, answer: Relay.Message)
    ensures var (s', r) := MessageSpec.Announce(s, id, room, payload, fate, answer);
            s'.table == s.table && (r.Ok? ==> r.value == answer)
  {
  }

  /** A socket's message that went out is one publication, and the handler broadcasts
      it exactly if the publisher acknowledged it. Over UUID text the relay makes the
      very same broadcast of that publication, which is why its own node sees it twice. */
  lemma SocketRepeatsTheRelay(enc: Network.Encoder, c: Client, s: MessageSpec.State, room: string, content: string,
                              attachments: nat, id: string, now: int, failAt: nat, fate: MessageSpec.PublishFate)
    ensures var (s', sent) := OnSend(enc, c, s, room, content, attachments, id, now, failAt, fate);
            && (s'.log == s.log || s'.log[..|s'.log| - 1] == s.log)
            && (s'.log != s.log ==>
                  var pub := s'.log[|s.log|];
                  && sent == (if fate.Published? then Network.Owed(enc, pub) else [])
                  && (UuidText(TrimSpace(room)) && sent != [] ==>
                        Network.Relayed(enc, pub) == [Hub.Send(sent[0])]))
  {
    var roomID := TrimSpace(room);
    if roomID != "" && roomID in c.rooms {
      SentIsLogged(s, MessageSpec.Send(roomID, c.user, TrimSpace(content), attachments, id, now, failAt, fate));
      if UuidText(roomID) {
        var (s', sent) := OnSend(enc, c, s, room, content, attachments, id, now, failAt, fate);
        if s'.log != s.log {
          Relay.RoomPublicationsArrive(roomID, s'.log[|s.log|].payload);
        }
      }
    }
  }

  /** In every run a client never gets back a notice that excludes it. */
  lemma TypingIsNotEchoed(es: seq<Event>, c: Client, n: nat)
    requires n < |Run(NEW, es).log| && Run(NEW, es).log[n].exclude == Only(c)
    ensures forall data :: FromRoom(n, data) !in Received(Run(NEW, es), c)
  {
    DeliveryOrder(es, c);
  }

  /** A typing notice goes to a room of its sender, and passes over the sender. */
  lemma TypingStaysInTheRooms(c: Client, room: string, notice: string, msg: Broadcast)
    requires msg in OnTyping(c, room, notice)
    ensures msg.room in c.rooms && !Addressed(msg, c)
    ensures forall d: Client :: d != c && msg.room in d.rooms ==> Addressed(msg, d)
  {
  }

  // ----- which rooms a socket joins -----

  /** FilterAuthorizedRooms: of the room texts of a request, those whose listing came
      back and names the user, as they were written. */
  function Joined(rooms: seq<string>, user: string, listings: seq<Option<seq<string>>>): seq<string>
    requires |listings| == |rooms|
  {
    if rooms == [] then []
    else
      var n := |rooms| - 1;
      Joined(rooms[..n], user, listings[..n])
      + (if listings[n].Some? && user in listings[n].value then [rooms[n]] else [])
  }

  method FilterAuthorizedRooms(user: string, rooms: seq<string>, listings: seq<Option<seq<string>>>)
    returns (authorized: seq<string>)
    requires |listings| == |rooms|
    ensures authorized == Joined(rooms, user, listings)
  {
    authorized := [];
    for i := 0 to |rooms|
      invariant authorized == Joined(rooms[..i], user, listings[..i])
    {
      assert rooms[..i + 1][..i] == rooms[..i] && listings[..i + 1][..i] == listings[..i];
      if listings[i].None? {
        continue;
      }
      var members := listings[i].value;
      var k := 0;
      while k < |members| && members[k] != user
        invariant k <= |members| && user !in members[..k]
      {
        k := k + 1;
      }
      if k < |members| {
        authorized := authorized + [rooms[i]];
      } else {
        assert members == members[..k];
      }
    }
    assert rooms == rooms[..|rooms|] && listings == listings[..|rooms|];
  }

  /** ListMembers: a room's users, in any order, under whatever spelling of its id; it
      fails for a text that is no id, and may fail for any. */
  ghost predicate Lists(members: RoomSpec.Members, room: string, listing: Option<seq<string>>) {
    listing.Some? ==>
      Canon(room).Some? && forall u :: u in listing.value <==> u in RoomSpec.MembersOf(members, Canon(room).value)
  }

  predicate Picked(rooms: seq<string>, user: string, listings: seq<Option<seq<string>>>, room: string, i: int)
    requires |listings| == |rooms|
  {
    0 <= i < |rooms| && rooms[i] == room && listings[i].Some? && user in listings[i].value
  }

  lemma {:induction false} JoinedArePicked(rooms: seq<string>, user: string, listings: seq<Option<seq<string>>>,
                                           room: string)
    requires |listings| == |rooms|
    ensures room in Joined(rooms, user, listings) <==> exists i :: Picked(rooms, user, listings, room, i)
  {
    if rooms != [] {
      var n := |rooms| - 1;
      var front, past := rooms[..n], listings[..n];
      JoinedArePicked(front, user, past, room);
      assert forall i :: Picked(front, user, past, room, i) ==> Picked(rooms, user, listings, room, i);
      assert forall i :: Picked(rooms, user, listings, room, i) && i != n ==> Picked(front, user, past, room, i);
      assert Picked(rooms, user, listings, room, n) <==>
             rooms[n] == room && listings[n].Some? && user in listings[n].value;
    }
  }

  predicate MemberOf(members: RoomSpec.Members, user: string, room: string) {
    Canon(room).Some? && user in RoomSpec.MembersOf(members, Canon(room).value)
  }

  lemma ListingTells(members: RoomSpec.Members, user: string, room: string, listing: seq<string>)
    requires Lists(members, room, Some(listing))
    ensures user in listing <==> MemberOf(members, user, room)
  {
  }

  /** The room was asked for, and a listing of it came back. */
  predicate Asked(rooms: seq<string>, listings: seq<Option<seq<string>>>, room: string)
    requires |listings| == |rooms|
  {
    exists i :: 0 <= i < |rooms| && rooms[i] == room && listings[i].Some?
  }

  /** A socket joins a room under the very text it asked with, and exactly if that names
      a room of its user, in any spelling, and a listing of it came back. */
  lemma JoinedIff(members: RoomSpec.Members, rooms: seq<string>, user: string,
                  listings: seq<Option<seq<string>>>, room: string)
    requires |listings| == |rooms|
    requires forall i :: 0 <= i < |rooms| ==> Lists(members, rooms[i], listings[i])
    ensures room in Joined(rooms, user, listings) <==>
            MemberOf(members, user, room) && Asked(rooms, listings, room)
  {
    JoinedArePicked(rooms, user, listings, room);
    if i :| 0 <= i < |rooms| && rooms[i] == room && listings[i].Some? {
      ListingTells(members, user, room, listings[i].value);
      assert Picked(rooms, user, listings, room, i) <==> user in listings[i].value;
      forall k | Picked(rooms, user, listings, room, k) ensures MemberOf(members, user, room) {
        ListingTells(members, user, room, listings[k].value);
      }
    }
  }

  /** A member of m's room who asks for it without the hyphens of its id is let in, and
      m is never queued for it, whatever else happens. */
  lemma BareRoomHearsNothing(enc: Network.Encoder, net: Network.Net, before: seq<Network.NetEvent>, m: Relay.Message,
                             origin: Network.Origin, after: seq<Network.NetEvent>, ops: seq<MessageSpec.Op>, j: nat,
                             members: RoomSpec.Members, listing: seq<string>, c: Client)
    requires j < |net| && net[j] == Network.FRESH_NODE
    requires Canonical(m.room)
    requires Network.Injective(enc) && Network.NoticesExclude(before) && Network.NoticesExclude(after)
    requires Network.Publishes(before + ([Network.Publishing(m, origin)] + after), ops)
    requires Network.OrderlyNode(enc, Network.FRESH_NODE, j, before + ([Network.Publishing(m, origin)] + after))
    requires Network.WorkedOff(enc, Network.NetRun(enc, net, before + ([Network.Publishing(m, origin)] + after))[j], m)
    requires MemberOf(members, c.user, m.room) && Lists(members, WithoutHyphens(m.room), Some(listing))
    requires c.rooms == Joined([WithoutHyphens(m.room)], c.user, [Some(listing)])
    ensures c.rooms == [WithoutHyphens(m.room)]
    ensures var h := Network.NetRun(enc, net, before + ([Network.Publishing(m, origin)] + after))[j].hub;
            c in Network.NetRun(enc, net, before)[j].hub.since ==>
              Network.Copies(Received(h, c), h.log, Network.EncodedMessage(enc, m)) == 0
  {
    BareIsAccepted(m.room);
    CanonicalIsUuidText(m.room);
    assert Joined([], c.user, []) == [];
    assert [WithoutHyphens(m.room)][..0] == [];
    Network.Fanout(enc, net, before, m, origin, after, ops, j, c);
  }
}
