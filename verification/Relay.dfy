/** Channel names, and what the relay of a websocket node makes of a publication. */
module Relay {
  import opened Text
  import opened Uuid

  const USERS := "users:"
  const EVENTS := ":events"
  const ROOMS := "rooms:"
  const MESSAGES := ":messages"

  function UserChannel(user: string): string {
    USERS + user + EVENTS
  }

  function RoomChannel(room: string): string {
    ROOMS + room + MESSAGES
  }

  /** A message as stored and as published; times are opaque stamps. */
  datatype Message = Message(id: string, room: string, sender: string, content: string,
                             status: Status, created: int, updated: int)

  datatype Status = SENT | DELIVERED | READ

  /** What a publication's JSON says; `type` is the envelope's field. */
  datatype Payload =
    | Posted(msg: Message)
    | Deleted(id: string, room: string)
    | Typed(kind: string)
    | Unreadable

  datatype Event = ReceiveMessage(msg: Message) | MessageDeleted(id: string, room: string)

  /** What the relay asks of the hub. */
  datatype Action = SendTo(user: string, payload: Payload) | Broadcast(room: string, event: Event) | Drop

  predicate OccursAt(s: string, sub: string, i: nat) {
    i + |sub| <= |s| && forall k :: 0 <= k < |sub| ==> s[i + k] == sub[k]
  }

  /** strings.Contains. */
  predicate Contains(s: string, sub: string) {
    exists i :: 0 <= i <= |s| && OccursAt(s, sub, i)
  }

  datatype Route = ToUser(user: string) | Ignored | ToRoom

  /** Where a publication goes, by its channel: user events first; everything else is a room
      message. */
  function Classify(channel: string): Route {
    if Contains(channel, USERS) && Contains(channel, EVENTS) then
      var parts := Split(channel, ':');
      if 3 <= |parts| then ToUser(parts[1]) else Ignored
    else ToRoom
  }

  /** What the relay's receive loop makes of one publication. */
  function Dispatch(channel: string, payload: Payload): Action {
    match Classify(channel)
    case ToUser(user) => SendTo(user, payload)
    case Ignored => Drop
    case ToRoom =>
      match payload
      case Posted(msg) => if msg.room == "" then Drop else Broadcast(msg.room, ReceiveMessage(msg))
      case Deleted(id, room) =>
        if TrimSpace(room) == "" then Drop
        else Broadcast(TrimSpace(room), MessageDeleted(id, TrimSpace(room)))
      case Typed(_) => Drop
      case Unreadable => Drop
  }

  lemma UserChannelParts(user: string)
    ensures var parts := Split(UserChannel(user), ':');
            3 <= |parts| && parts[1] == Split(user, ':')[0]
  {
    SplitHead("users", user + EVENTS, ':');
    assert "users" + [':'] + (user + EVENTS) == UserChannel(user);
    SplitBefore(user, EVENTS);
    OccurrencesConcat(user, EVENTS, ':');
    assert Occurrences(EVENTS, ':') >= 1;
  }

  /** The first piece does not depend on what follows a separator. */
  lemma {:induction false} SplitBefore(s: string, t: string)
    requires t != "" && t[0] == ':'
    ensures Split(s + t, ':')[0] == Split(s, ':')[0]
  {
    if s == "" {
      assert s + t == t;
    } else {
      assert (s + t)[1..] == s[1..] + t;
      SplitBefore(s[1..], t);
    }
  }

  /** A user channel always routes to a user, and to its own user exactly when
      the id has no colon. */
  lemma UserChannelRoute(user: string)
    ensures Classify(UserChannel(user)).ToUser?
    ensures Classify(UserChannel(user)) == ToUser(user) <==> Free(user, ':')
  {
    var ch := UserChannel(user);
    assert OccursAt(ch, USERS, 0) && OccursAt(ch, EVENTS, 6 + |user|);
    UserChannelParts(user);
    if Free(user, ':') {
      SplitFree(user, ':');
    }
  }

  predicate StartsWithEvents(id: string) {
    6 <= |id| && id[..6] == "events"
  }

  predicate EndsWithUsers(id: string) {
    5 <= |id| && id[|id| - 5..] == "users"
  }

  /** The only colons of a room channel are its own two. */
  lemma RoomColons(room: string, i: nat)
    requires Free(room, ':') && i < |RoomChannel(room)|
    ensures RoomChannel(room)[i] == ':' <==> i == 5 || i == 6 + |room|
  {
    var ch := RoomChannel(room);
    if 6 <= i < 6 + |room| {
      assert ch[i] == room[i - 6];
    }
  }

  lemma CharOf(s: string, sub: string, i: nat, k: nat)
    requires OccursAt(s, sub, i) && k < |sub|
    ensures i + k < |s| && s[i + k] == sub[k]
  {
  }

  lemma RoomChar(room: string, k: nat)
    requires k < |room|
    ensures RoomChannel(room)[6 + k] == room[k]
  {
  }

  lemma UsersInRoom(room: string, i: nat)
    requires Free(room, ':') && OccursAt(RoomChannel(room), USERS, i)
    ensures EndsWithUsers(room)
  {
    var ch, n := RoomChannel(room), |room|;
    CharOf(ch, USERS, i, 0);
    CharOf(ch, USERS, i, 5);
    assert USERS[0] == 'u' && USERS[5] == ':';
    RoomColons(room, i + 5);
    assert i == n + 1;
    var back := if i <= 5 then 5 - i else 0;
    CharOf(ch, USERS, i, back);
    RoomColons(room, 5);
    assert 5 <= n;
    forall k | 0 <= k < 5 ensures room[n - 5..][k] == "users"[k] {
      CharOf(ch, USERS, i, k);
      RoomChar(room, n - 5 + k);
    }
  }

  lemma EventsInRoom(room: string, i: nat)
    requires Free(room, ':') && OccursAt(RoomChannel(room), EVENTS, i)
    ensures StartsWithEvents(room)
  {
    var ch, n := RoomChannel(room), |room|;
    CharOf(ch, EVENTS, i, 0);
    CharOf(ch, EVENTS, i, 1);
    assert EVENTS[0] == ':' && EVENTS[1] == 'e';
    RoomColons(room, i);
    assert i != 6 + n by {
      assert ch[6 + n + 1] == MESSAGES[1] == 'm';
    }
    var next := if n < 6 then n + 1 else 1;
    CharOf(ch, EVENTS, i, next);
    RoomColons(room, 6 + n);
    assert 6 <= n;
    forall k | 0 <= k < 6 ensures room[..6][k] == "events"[k] {
      CharOf(ch, EVENTS, i, k + 1);
      RoomChar(room, k);
      assert EVENTS[1..] == "events";
    }
  }

  lemma RoomHasUsers(room: string)
    requires Free(room, ':')
    ensures Contains(RoomChannel(room), USERS) <==> EndsWithUsers(room)
  {
    var ch, n := RoomChannel(room), |room|;
    if EndsWithUsers(room) {
      forall k | 0 <= k < 6 ensures ch[n + 1 + k] == USERS[k] {
        if k < 5 {
          RoomChar(room, n - 5 + k);
          assert room[n - 5 + k] == room[n - 5..][k];
        }
      }
      assert OccursAt(ch, USERS, n + 1);
    }
    if Contains(ch, USERS) {
      var i :| 0 <= i <= |ch| && OccursAt(ch, USERS, i);
      UsersInRoom(room, i);
    }
  }

  lemma RoomHasEvents(room: string)
    requires Free(room, ':')
    ensures Contains(RoomChannel(room), EVENTS) <==> StartsWithEvents(room)
  {
    var ch, n := RoomChannel(room), |room|;
    if StartsWithEvents(room) {
      forall k | 0 <= k < 7 ensures ch[5 + k] == EVENTS[k] {
        if 1 <= k {
          RoomChar(room, k - 1);
          assert room[k - 1] == room[..6][k - 1] == EVENTS[1..][k - 1];
        }
      }
      assert OccursAt(ch, EVENTS, 5);
    }
    if Contains(ch, EVENTS) {
      var i :| 0 <= i <= |ch| && OccursAt(ch, EVENTS, i);
      EventsInRoom(room, i);
    }
  }

  /** For ids without colons: a room channel is taken for a user channel exactly
      when the id starts with "events" and ends with "users". */
  lemma RoomChannelRoute(room: string)
    requires Free(room, ':')
    ensures Classify(RoomChannel(room)) == ToRoom <==>
            !(StartsWithEvents(room) && EndsWithUsers(room))
  {
    RoomHasUsers(room);
    RoomHasEvents(room);
  }

  lemma UuidChannels(id: string)
    requires UuidText(id)
    ensures Classify(UserChannel(id)) == ToUser(id)
    ensures Classify(RoomChannel(id)) == ToRoom
  {
    assert Free(id, ':');
    UserChannelRoute(id);
    RoomChannelRoute(id);
    if StartsWithEvents(id) {
      assert id[1] == id[..6][1] == 'v';
    }
  }

  /** A room's publications reach the broadcast of that room, whatever they say. */
  lemma RoomPublicationsArrive(room: string, payload: Payload)
    requires UuidText(room) && room != ""
    requires (payload.Posted? && payload.msg.room == room) || (payload.Deleted? && payload.room == room)
    ensures Dispatch(RoomChannel(room), payload)
         == Broadcast(room, if payload.Posted? then ReceiveMessage(payload.msg) else MessageDeleted(payload.id, room))
  {
    UuidChannels(room);
    UuidIsTrimmed(room);
  }
}
