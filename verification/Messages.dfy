/** The message service over its table and its publisher. */
module MessageSpec {
  import opened Text
  import opened Uuid
  import opened Relay

  datatype MessageError =
    | InvalidRoomID | InvalidSenderID | InvalidContent | InvalidMessageID | InvalidUserID
    | NotFound | NotAllowed | Internal

  datatype Publication = Publication(channel: string, payload: Payload)

  /** What happens to the publication of a call, if it gets that far. */
  datatype PublishFate = Published | Unacked | Lost | NoPublisher

  /** By message and user: the last status that a receipt recorded. */
  type Receipts = map<(string, string), Status>

  /** The tables of messages and receipts, all publications that went out, all ids ever
      generated, the ids whose latest change did not go out, and those whose latest
      publication spells its room or its sender otherwise than the table does. */
  datatype State = State(table: map<string, Message>, receipts: Receipts, log: seq<Publication>,
                         used: set<string>, stale: set<string>, raw: set<string>)

  const EMPTY := State(map[], map[], [], {}, {}, {})

  type Reply = Result<Message, MessageError>

  /** `failAt` is the number of the database call that fails, from 1; 0 for none. */
  datatype Op =
    | Send(room: string, sender: string, content: string, attachments: nat,
           id: string, now: int, failAt: nat, fate: PublishFate)
    | Edit(message: string, user: string, content: string, now: int, failAt: nat, fate: PublishFate)
    | Delete(message: string, user: string, failAt: nat, fate: PublishFate)
    | Mark(message: string, user: string, status: Status, failAt: nat)
    | DropRoom(room: string)   // the rooms table deletes a room; its messages cascade

  /** TIMESTAMPTZ keeps microseconds of a time in nanoseconds. */
  function Micros(t: int): (r: int)
    ensures r % 1000 == 0 && r <= t < r + 1000
  {
    t - t % 1000
  }

  /** The row that inserting m leaves: the columns hold UUIDs, whatever their spelling, and
      times in microseconds. */
  function RowOf(m: Message): Option<Message> {
    var room, sender := Canon(m.room), Canon(m.sender);
    if room.None? || sender.None? then None
    else Some(m.(room := room.value, sender := sender.value, created := Micros(m.created), updated := Micros(m.updated)))
  }

  /** It reads back as it was written. */
  predicate IsRow(m: Message) {
    RowOf(m) == Some(m)
  }

  predicate SpeltAsStored(m: Message) {
    Canonical(m.room) && Canonical(m.sender)
  }

  predicate IsRaw(payload: Payload) {
    payload.Posted? && !SpeltAsStored(payload.msg)
  }

  /** Publishing about id. */
  function WentOut(s: State, id: string, room: string, payload: Payload): State {
    s.(log := s.log + [Publication(RoomChannel(room), payload)],
       stale := s.stale - {id},
       raw := if IsRaw(payload) then s.raw + {id} else s.raw - {id})
  }

  /** The end of Send, Edit and Delete: publish about id, and answer. */
  function Announce(s: State, id: string, room: string, payload: Payload, fate: PublishFate, answer: Message)
    : (State, Reply)
  {
    match fate
    case Published => (WentOut(s, id, room, payload), Ok(answer))
    case Unacked => (WentOut(s, id, room, payload), Err(Internal))
    case Lost => (s.(stale := s.stale + {id}), Err(Internal))
    case NoPublisher => (s.(stale := s.stale + {id}), Ok(answer))
  }

  /** What Send asks the repository to insert. */
  function Composed(op: Op): Message
    requires op.Send?
  {
    Message(op.id, op.room, op.sender, TrimSpace(op.content), SENT, op.now, op.now)
  }

  /** The row is stored, and the message as composed is published and returned. */
  function ApplySend(s: State, op: Op): (State, Reply)
    requires op.Send?
  {
    if TrimSpace(op.room) == "" then (s, Err(InvalidRoomID))
    else if TrimSpace(op.sender) == "" then (s, Err(InvalidSenderID))
    else if TrimSpace(op.content) == "" && op.attachments == 0 then (s, Err(InvalidContent))
    else
      var msg := Composed(op);
      var row := RowOf(msg);
      if op.failAt == 1 || row.None? then (s, Err(Internal))
      else Announce(s.(table := s.table[op.id := row.value]), op.id, op.room, Posted(msg), op.fate, msg)
  }

  function ApplyEdit(s: State, op: Op): (State, Reply)
    requires op.Edit?
  {
    var text, user, content := TrimSpace(op.message), TrimSpace(op.user), TrimSpace(op.content);
    if text == "" then (s, Err(InvalidMessageID))
    else if user == "" then (s, Err(InvalidUserID))
    else if content == "" then (s, Err(InvalidContent))
    else if op.failAt == 1 || Canon(text).None? then (s, Err(Internal))
    else
      var id := Canon(text).value;
      if id !in s.table then (s, Err(NotFound))
      else if s.table[id].sender != user then (s, Err(NotAllowed))
      else if op.failAt == 2 then (s, Err(Internal))
      else
        var msg := s.table[id].(content := content, updated := Micros(op.now));
        Announce(s.(table := s.table[id := msg]), id, msg.room, Posted(msg), op.fate, msg)
  }

  function Kept(receipts: Receipts, ids: set<string>): Receipts {
    map k | k in receipts && k.0 !in ids :: receipts[k]
  }

  /** Messages are gone, and their receipts with them. */
  function Without(s: State, ids: set<string>): State {
    s.(table := s.table - ids, receipts := Kept(s.receipts, ids))
  }

  function ApplyDelete(s: State, op: Op): (State, Reply)
    requires op.Delete?
  {
    var text, user := TrimSpace(op.message), TrimSpace(op.user);
    if text == "" then (s, Err(InvalidMessageID))
    else if user == "" then (s, Err(InvalidUserID))
    else if op.failAt == 1 || Canon(text).None? then (s, Err(Internal))
    else
      var id := Canon(text).value;
      if id !in s.table then (s, Err(NotFound))
      else if s.table[id].sender != user then (s, Err(NotAllowed))
      else if op.failAt == 2 then (s, Err(Internal))
      else
        var msg := s.table[id];
        Announce(Without(s, {id}), id, msg.room, Deleted(msg.id, msg.room), op.fate, msg)
  }

  /** MarkDelivered and MarkRead: the receipt, whose foreign key refuses an unknown message,
      and then the message's status. */
  function ApplyMark(s: State, op: Op): (State, Result<(), MessageError>)
    requires op.Mark?
  {
    if TrimSpace(op.message) == "" then (s, Err(InvalidMessageID))
    else if TrimSpace(op.user) == "" then (s, Err(InvalidUserID))
    else if op.failAt == 1 || Canon(op.message).None? || Canon(op.user).None? then (s, Err(Internal))
    else
      var id, user := Canon(op.message).value, Canon(op.user).value;
      if id !in s.table then (s, Err(Internal))
      else
        var s' := s.(receipts := s.receipts[(id, user) := op.status]);
        if op.failAt == 2 then (s', Err(Internal))
        else (s'.(table := s.table[id := s.table[id].(status := op.status)]), Ok(()))
  }

  function InRoom(table: map<string, Message>, room: string): set<string> {
    set id | id in table && table[id].room == room
  }

  function Step(s: State, op: Op): State {
    match op
    case Send(_, _, _, _, id, _, _, _) => ApplySend(s.(used := s.used + {id}), op).0
    case Edit(_, _, _, _, _, _) => ApplyEdit(s, op).0
    case Delete(_, _, _, _) => ApplyDelete(s, op).0
    case Mark(_, _, _, _) => ApplyMark(s, op).0
    case DropRoom(room) =>
      var ids := InRoom(s.table, room);
      Without(s, ids).(stale := s.stale + ids)
  }

  /** uuid.New never repeats itself. */
  predicate Fresh(s: State, op: Op) {
    op.Send? ==> op.id !in s.used
  }

  function Run(s: State, ops: seq<Op>): State
    decreases |ops|
  {
    if ops == [] then s else Run(Step(s, ops[0]), ops[1..])
  }

  predicate FreshRun(s: State, ops: seq<Op>)
    decreases |ops|
  {
    ops == [] || (Fresh(s, ops[0]) && FreshRun(Step(s, ops[0]), ops[1..]))
  }
}

/** The service as an object: each call writes the table, then publishes. */
module MessageService {
  import opened Text
  import opened Uuid
  import opened Relay
  import opened MessageSpec

  class Service {
    var table: map<string, Message>
    var receipts: Receipts
    var log: seq<Publication>
    ghost var used: set<string>
    ghost var stale: set<string>
    ghost var raw: set<string>

    ghost function View(): State
      reads this
    {
      State(table, receipts, log, used, stale, raw)
    }

    constructor ()
      ensures View() == EMPTY
    {
      table, receipts, log, used, stale, raw := map[], map[], [], {}, {}, {};
    }

    method Publish(room: string, payload: Payload, fate: PublishFate, ghost id: string, answer: Message)
      returns (r: Reply)
      modifies this
      ensures (View(), r) == Announce(old(View()), id, room, payload, fate, answer)
    {
      if fate.Published? || fate.Unacked? {
        log := log + [Publication(RoomChannel(room), payload)];
        stale := stale - {id};
        raw := if IsRaw(payload) then raw + {id} else raw - {id};
      } else {
        stale := stale + {id};
      }
      r := if fate.Published? || fate.NoPublisher? then Ok(answer) else Err(Internal);
    }

    method Send(op: Op) returns (r: Reply)
      requires op.Send?
      modifies this
      ensures (View(), r) == ApplySend(old(View()), op)
    {
      if TrimSpace(op.room) == "" {
        return Err(InvalidRoomID);
      }
      if TrimSpace(op.sender) == "" {
        return Err(InvalidSenderID);
      }
      if TrimSpace(op.content) == "" && op.attachments == 0 {
        return Err(InvalidContent);
      }
      var msg := Composed(op);
      var row := RowOf(msg);
      if op.failAt == 1 || row.None? {
        return Err(Internal);
      }
      table := table[op.id := row.value];
      r := Publish(op.room, Posted(msg), op.fate, op.id, msg);
    }

    method Edit(op: Op) returns (r: Reply)
      requires op.Edit?
      modifies this
      ensures (View(), r) == ApplyEdit(old(View()), op)
    {
      var text, user, content := TrimSpace(op.message), TrimSpace(op.user), TrimSpace(op.content);
      if text == "" {
        return Err(InvalidMessageID);
      }
      if user == "" {
        return Err(InvalidUserID);
      }
      if content == "" {
        return Err(InvalidContent);
      }
      if op.failAt == 1 || Canon(text).None? {
        return Err(Internal);
      }
      var id := Canon(text).value;
      if id !in table {
        return Err(NotFound);
      }
      if table[id].sender != user {
        return Err(NotAllowed);
      }
      if op.failAt == 2 {
        return Err(Internal);
      }
      var msg := table[id].(content := content, updated := Micros(op.now));
      table := table[id := msg];
      r := Publish(msg.room, Posted(msg), op.fate, id, msg);
    }

    method Delete(op: Op) returns (r: Reply)
      requires op.Delete?
      modifies this
      ensures (View(), r) == ApplyDelete(old(View()), op)
    {
      var text, user := TrimSpace(op.message), TrimSpace(op.user);
      if text == "" {
        return Err(InvalidMessageID);
      }
      if user == "" {
        return Err(InvalidUserID);
      }
      if op.failAt == 1 || Canon(text).None? {
        return Err(Internal);
      }
      var id := Canon(text).value;
      if id !in table {
        return Err(NotFound);
      }
      var msg := table[id];
      if msg.sender != user {
        return Err(NotAllowed);
      }
      if op.failAt == 2 {
        return Err(Internal);
      }
      table := table - {id};
      receipts := Kept(receipts, {id});
      r := Publish(msg.room, Deleted(msg.id, msg.room), op.fate, id, msg);
    }

    method Mark(op: Op) returns (r: Result<(), MessageError>)
      requires op.Mark?
      modifies this
      ensures (View(), r) == ApplyMark(old(View()), op)
    {
      if TrimSpace(op.message) == "" {
        return Err(InvalidMessageID);
      }
      if TrimSpace(op.user) == "" {
        return Err(InvalidUserID);
      }
      if op.failAt == 1 || Canon(op.message).None? || Canon(op.user).None? {
        return Err(Internal);
      }
      var id, user := Canon(op.message).value, Canon(op.user).value;
      if id !in table {
        return Err(Internal);
      }
      receipts := receipts[(id, user) := op.status];
      if op.failAt == 2 {
        return Err(Internal);
      }
      table := table[id := table[id].(status := op.status)];
      return Ok(());
    }
  }
}

/** Replaying the publications rebuilds the table. */
module MessageReplay {
  import opened Text
  import opened Uuid
  import opened Relay
  import opened MessageSpec

  datatype Brief = Brief(room: string, sender: string, content: string)

  function BriefOf(m: Message): Brief {
    Brief(m.room, m.sender, m.content)
  }

  function Project(table: map<string, Message>): map<string, Brief> {
    map id | id in table :: BriefOf(table[id])
  }

  function IdOf(p: Payload): string
    requires p.Posted? || p.Deleted?
  {
    if p.Posted? then p.msg.id else p.id
  }

  function Applied(view: map<string, Brief>, p: Payload): map<string, Brief> {
    match p
    case Posted(msg) => view[msg.id := BriefOf(msg)]
    case Deleted(id, _) => view - {id}
    case _ => view
  }

  function Replay(log: seq<Publication>): map<string, Brief> {
    if log == [] then map[]
    else Applied(Replay(log[..|log| - 1]), log[|log| - 1].payload)
  }

  /** The two agree about an id: both know it, with the same brief, or neither does. */
  predicate AgreeOn(s: State, id: string) {
    (id in Replay(s.log) <==> id in s.table)
    && (id in s.table ==> Replay(s.log)[id] == BriefOf(s.table[id]))
  }

  predicate Means(b: Brief, row: Brief) {
    Canon(b.room) == Some(row.room) && Canon(b.sender) == Some(row.sender) && b.content == row.content
  }

  predicate BriefAsStored(b: Brief) {
    Canonical(b.room) && Canonical(b.sender)
  }

  /** They agree up to the spelling of room and sender. */
  predicate AgreeInMeaning(s: State, id: string) {
    (id in Replay(s.log) <==> id in s.table)
    && (id in s.table ==> Means(Replay(s.log)[id], BriefOf(s.table[id])))
  }

  predicate RowAt(s: State, id: string) {
    id in s.table ==> s.table[id].id == id && id in s.used && IsRow(s.table[id])
  }

  predicate ReplayAt(s: State, id: string) {
    id !in s.stale ==> AgreeInMeaning(s, id)
  }

  predicate RawAt(s: State, id: string) {
    id in s.raw <==> id in Replay(s.log) && !BriefAsStored(Replay(s.log)[id])
  }

  predicate EntryAt(s: State, i: nat)
    requires i < |s.log|
  {
    var payload := s.log[i].payload;
    && (payload.Posted? || payload.Deleted?)
    && IdOf(payload) in s.used
    && (payload.Deleted? ==> payload.id !in s.table)
  }

  /** The invariant of every run with fresh ids, whatever fails. */
  ghost predicate Consistent(s: State) {
    && (forall id :: RowAt(s, id) && ReplayAt(s, id) && RawAt(s, id))
    && (forall i :: 0 <= i < |s.log| ==> EntryAt(s, i))
    && NothingAfterDelete(s.log)
  }

  predicate NothingAfterDelete(log: seq<Publication>) {
    forall i, j :: 0 <= i < j < |log| && log[i].payload.Deleted? ==>
      (log[j].payload.Posted? || log[j].payload.Deleted?) ==> IdOf(log[j].payload) != log[i].payload.id
  }

  lemma ReplaySnoc(log: seq<Publication>, p: Publication)
    ensures Replay(log + [p]) == Applied(Replay(log), p.payload)
  {
    assert (log + [p])[..|log|] == log;
  }

  lemma MicrosTwice(t: int)
    ensures Micros(Micros(t)) == Micros(t)
  {
  }

  lemma RowIsRow(m: Message)
    requires RowOf(m).Some?
    ensures IsRow(RowOf(m).value)
  {
    var row := RowOf(m).value;
    CanonIsCanonical(m.room);
    CanonIsCanonical(m.sender);
    MicrosTwice(m.created);
    MicrosTwice(m.updated);
    IsRowWhen(row);
  }

  lemma IsRowWhen(m: Message)
    requires Canon(m.room) == Some(m.room) && Canon(m.sender) == Some(m.sender)
    requires Micros(m.created) == m.created && Micros(m.updated) == m.updated
    ensures IsRow(m)
  {
  }

  /** A row stays one with a new content and a new stamp. */
  lemma EditedIsRow(m: Message, content: string, t: int)
    requires IsRow(m)
    ensures IsRow(m.(content := content, updated := Micros(t)))
  {
    var row := RowOf(m).value;
    assert row.room == m.room && row.sender == m.sender && row.created == m.created;
    MicrosTwice(t);
    IsRowWhen(m.(content := content, updated := Micros(t)));
  }

  lemma RowIsSpeltAsStored(m: Message)
    requires IsRow(m)
    ensures SpeltAsStored(m)
  {
    assert RowOf(m).value.room == m.room && RowOf(m).value.sender == m.sender;
  }

  /** `table` is s.table after the one change that the payload speaks of. */
  predicate IsChange(s: State, table: map<string, Message>, id: string, payload: Payload) {
    && (payload.Posted? || payload.Deleted?)
    && IdOf(payload) == id && id in s.used
    && (if payload.Posted?
        then id in table && RowOf(payload.msg) == Some(table[id]) && table == s.table[id := table[id]]
        else table == s.table - {id})
  }

  /** No deletion of id has gone out. */
  predicate Undeleted(log: seq<Publication>, id: string) {
    forall i :: 0 <= i < |log| && log[i].payload.Deleted? ==> log[i].payload.id != id
  }

  /** The change went out: what it does to the log. */
  lemma OutLog(s: State, table: map<string, Message>, id: string, room: string, payload: Payload, i: nat)
    requires Consistent(s) && IsChange(s, table, id, payload) && Undeleted(s.log, id)
    requires i <= |s.log|
    ensures EntryAt(WentOut(s.(table := table), id, room, payload), i)
  {
    if i < |s.log| {
      assert EntryAt(s, i);
    }
  }

  lemma OutLast(log: seq<Publication>, p: Publication)
    requires NothingAfterDelete(log)
    requires (p.payload.Posted? || p.payload.Deleted?) && Undeleted(log, IdOf(p.payload))
    ensures NothingAfterDelete(log + [p])
  {
  }

  lemma AppliedElsewhere(view: map<string, Brief>, payload: Payload, other: string)
    requires (payload.Posted? || payload.Deleted?) && other != IdOf(payload)
    ensures var after := Applied(view, payload);
            (other in after <==> other in view) && (other in view ==> after[other] == view[other])
  {
  }

  lemma ReplayElsewhere(log: seq<Publication>, p: Publication, other: string)
    requires (p.payload.Posted? || p.payload.Deleted?) && other != IdOf(p.payload)
    ensures other in Replay(log + [p]) <==> other in Replay(log)
    ensures other in Replay(log) ==> Replay(log + [p])[other] == Replay(log)[other]
  {
    ReplaySnoc(log, p);
    AppliedElsewhere(Replay(log), p.payload, other);
  }

  /** As far as an id goes, the two states are the same. */
  predicate SameAt(s: State, s': State, id: string) {
    && (id in s'.table <==> id in s.table) && (id in s.table ==> s'.table[id] == s.table[id])
    && (id in Replay(s'.log) <==> id in Replay(s.log))
    && (id in Replay(s.log) ==> Replay(s'.log)[id] == Replay(s.log)[id])
    && (id in s'.raw <==> id in s.raw) && (id in s.stale ==> id in s'.stale) && s.used <= s'.used
  }

  lemma SameAtKeeps(s: State, s': State, id: string)
    requires SameAt(s, s', id) && RowAt(s, id) && ReplayAt(s, id) && RawAt(s, id)
    ensures RowAt(s', id) && ReplayAt(s', id) && RawAt(s', id)
  {
  }

  lemma OutElsewhere(s: State, table: map<string, Message>, id: string, room: string, payload: Payload, other: string)
    requires Consistent(s) && IsChange(s, table, id, payload) && other != id
    ensures var s' := WentOut(s.(table := table), id, room, payload);
            RowAt(s', other) && ReplayAt(s', other) && RawAt(s', other)
  {
    var s' := WentOut(s.(table := table), id, room, payload);
    ReplayElsewhere(s.log, Publication(RoomChannel(room), payload), other);
    assert SameAt(s, s', other);
    assert RowAt(s, other) && ReplayAt(s, other) && RawAt(s, other);
    SameAtKeeps(s, s', other);
  }

  lemma PostedHere(s: State, table: map<string, Message>, id: string, room: string, payload: Payload)
    requires IsChange(s, table, id, payload) && payload.Posted?
    ensures var s' := WentOut(s.(table := table), id, room, payload);
            RowAt(s', id) && ReplayAt(s', id) && RawAt(s', id)
  {
    var s' := WentOut(s.(table := table), id, room, payload);
    ReplaySnoc(s.log, Publication(RoomChannel(room), payload));
    RowIsRow(payload.msg);
    assert Replay(s'.log)[id] == BriefOf(payload.msg);
    assert Means(BriefOf(payload.msg), BriefOf(table[id]));
  }

  lemma DeletedHere(s: State, table: map<string, Message>, id: string, room: string, payload: Payload)
    requires IsChange(s, table, id, payload) && payload.Deleted?
    ensures var s' := WentOut(s.(table := table), id, room, payload);
            RowAt(s', id) && ReplayAt(s', id) && RawAt(s', id)
  {
    var s' := WentOut(s.(table := table), id, room, payload);
    ReplaySnoc(s.log, Publication(RoomChannel(room), payload));
    assert id !in Replay(s'.log) && id !in s'.table;
  }

  lemma OutHere(s: State, table: map<string, Message>, id: string, room: string, payload: Payload)
    requires IsChange(s, table, id, payload)
    ensures var s' := WentOut(s.(table := table), id, room, payload);
            RowAt(s', id) && ReplayAt(s', id) && RawAt(s', id)
  {
    if payload.Posted? {
      PostedHere(s, table, id, room, payload);
    } else {
      DeletedHere(s, table, id, room, payload);
    }
  }

  /** The change did not go out. */
  lemma HeldConsistent(s: State, table: map<string, Message>, id: string, payload: Payload)
    requires Consistent(s) && IsChange(s, table, id, payload) && Undeleted(s.log, id)
    ensures Consistent(s.(table := table, stale := s.stale + {id}))
  {
    var s' := s.(table := table, stale := s.stale + {id});
    if payload.Posted? {
      RowIsRow(payload.msg);
    }
    forall other ensures RowAt(s', other) && ReplayAt(s', other) && RawAt(s', other) {
      assert RowAt(s, other) && ReplayAt(s, other) && RawAt(s, other);
    }
    forall i | 0 <= i < |s.log| ensures EntryAt(s', i) {
      assert EntryAt(s, i);
    }
  }

  /** One change of the table for id, announced in one way or another. */
  lemma AnnounceConsistent(s: State, table: map<string, Message>, id: string, room: string, payload: Payload,
                           fate: PublishFate, answer: Message)
    requires Consistent(s) && IsChange(s, table, id, payload) && Undeleted(s.log, id)
    ensures Consistent(Announce(s.(table := table), id, room, payload, fate, answer).0)
  {
    if fate.Published? || fate.Unacked? {
      var s' := WentOut(s.(table := table), id, room, payload);
      OutLast(s.log, Publication(RoomChannel(room), payload));
      forall i | 0 <= i < |s'.log| ensures EntryAt(s', i) {
        OutLog(s, table, id, room, payload, i);
      }
      forall other
        ensures RowAt(s', other) && ReplayAt(s', other) && RawAt(s', other)
      {
        if other == id {
          OutHere(s, table, id, room, payload);
        } else {
          OutElsewhere(s, table, id, room, payload, other);
        }
      }
    } else {
      HeldConsistent(s, table, id, payload);
    }
  }

  /** Nothing but the ids generated has changed. */
  lemma MoreUsed(s: State, ids: set<string>)
    requires Consistent(s)
    ensures Consistent(s.(used := s.used + ids))
  {
    var s' := s.(used := s.used + ids);
    forall id ensures RowAt(s', id) && ReplayAt(s', id) && RawAt(s', id) {
      assert RowAt(s, id) && ReplayAt(s, id) && RawAt(s, id);
    }
    forall i | 0 <= i < |s.log| ensures EntryAt(s', i) {
      assert EntryAt(s, i);
    }
  }

  lemma NewIsUndeleted(s: State, id: string)
    requires Consistent(s) && id !in s.used
    ensures Undeleted(s.log, id)
  {
    forall i | 0 <= i < |s.log| && s.log[i].payload.Deleted? ensures s.log[i].payload.id != id {
      assert EntryAt(s, i);
    }
  }

  lemma DeletedIsGone(s: State, id: string)
    requires Consistent(s) && id in s.table
    ensures Undeleted(s.log, id)
  {
    forall i | 0 <= i < |s.log| && s.log[i].payload.Deleted? ensures s.log[i].payload.id != id {
      assert EntryAt(s, i);
    }
  }

  /** Send gets as far as announcing. */
  predicate Accepted(op: Op)
    requires op.Send?
  {
    && TrimSpace(op.room) != "" && TrimSpace(op.sender) != "" && (TrimSpace(op.content) != "" || op.attachments > 0)
    && op.failAt != 1 && Canon(op.room).Some? && Canon(op.sender).Some?
  }

  /** The row is stored, and the message announced as composed. */
  function Sent(s: State, op: Op): (State, Reply)
    requires op.Send? && Accepted(op)
  {
    Announce(s.(table := s.table[op.id := RowOf(Composed(op)).value]), op.id, op.room,
             Posted(Composed(op)), op.fate, Composed(op))
  }

  lemma SendAnswers(s: State, op: Op)
    requires op.Send?
    ensures if Accepted(op) then ApplySend(s, op) == Sent(s, op)
            else ApplySend(s, op).0 == s && ApplySend(s, op).1.Err?
  {
  }

  lemma SendDoes(s: State, op: Op)
    requires op.Send?
    ensures var s1 := s.(used := s.used + {op.id});
            Step(s, op) == if Accepted(op) then Sent(s1, op).0 else s1
  {
    SendAnswers(s.(used := s.used + {op.id}), op);
  }

  lemma SendConsistent(s: State, op: Op)
    requires Consistent(s) && op.Send? && Fresh(s, op)
    ensures Consistent(Step(s, op))
  {
    var s1 := s.(used := s.used + {op.id});
    MoreUsed(s, {op.id});
    NewIsUndeleted(s, op.id);
    SendDoes(s, op);
    if Accepted(op) {
      var msg := Composed(op);
      AnnounceConsistent(s1, s.table[op.id := RowOf(msg).value], op.id, op.room, Posted(msg), op.fate, msg);
    }
  }

  /** The message that an Edit or a Delete names. */
  function Target(op: Op): Option<string>
    requires op.Edit? || op.Delete?
  {
    Canon(TrimSpace(op.message))
  }

  function Edited(s: State, op: Op): Message
    requires op.Edit? && Target(op).Some? && Target(op).value in s.table
  {
    s.table[Target(op).value].(content := TrimSpace(op.content), updated := Micros(op.now))
  }

  function AfterEdit(s: State, op: Op): State
    requires op.Edit? && Target(op).Some? && Target(op).value in s.table
  {
    var id, msg := Target(op).value, Edited(s, op);
    Announce(s.(table := s.table[id := msg]), id, msg.room, Posted(msg), op.fate, msg).0
  }

  function AfterDelete(s: State, op: Op): State
    requires op.Delete? && Target(op).Some? && Target(op).value in s.table
  {
    var id, msg := Target(op).value, s.table[Target(op).value];
    Announce(Without(s, {id}), id, msg.room, Deleted(msg.id, msg.room), op.fate, msg).0
  }

  /** The call is by the sender of an existing message and gets as far as announcing. */
  predicate Granted(s: State, op: Op)
    requires op.Edit? || op.Delete?
  {
    && TrimSpace(op.user) != "" && op.failAt != 1 && op.failAt != 2 && Target(op).Some?
    && Target(op).value in s.table && s.table[Target(op).value].sender == TrimSpace(op.user)
    && (op.Edit? ==> TrimSpace(op.content) != "")
  }

  lemma NoTarget(op: Op)
    requires op.Edit? || op.Delete?
    ensures TrimSpace(op.message) == "" ==> Target(op).None?
  {
  }

  /** An Edit announces the row with its new content, or changes nothing. */
  lemma EditDoes(s: State, op: Op)
    requires op.Edit?
    ensures Step(s, op) == if Granted(s, op) then AfterEdit(s, op) else s
  {
    NoTarget(op);
  }

  /** A Delete announces the row as gone, or changes nothing. */
  lemma DeleteDoes(s: State, op: Op)
    requires op.Delete?
    ensures Step(s, op) == if Granted(s, op) then AfterDelete(s, op) else s
  {
    NoTarget(op);
  }

  lemma EditConsistent(s: State, op: Op)
    requires Consistent(s) && op.Edit?
    ensures Consistent(Step(s, op))
  {
    EditDoes(s, op);
    if Granted(s, op) {
      var id, msg := Target(op).value, Edited(s, op);
      DeletedIsGone(s, id);
      EditedIsSpelt(s, op);
      assert RowAt(s, id);
      AnnounceConsistent(s, s.table[id := msg], id, msg.room, Posted(msg), op.fate, msg);
    }
  }

  lemma DeleteConsistent(s: State, op: Op)
    requires Consistent(s) && op.Delete?
    ensures Consistent(Step(s, op))
  {
    DeleteDoes(s, op);
    if Granted(s, op) {
      var id, msg := Target(op).value, s.table[Target(op).value];
      DeletedIsGone(s, id);
      assert RowAt(s, id);
      var s1 := s.(receipts := Without(s, {id}).receipts);
      QuietConsistent(s, s1);
      AnnounceConsistent(s1, s.table - {id}, id, msg.room, Deleted(msg.id, msg.room), op.fate, msg);
    }
  }

  /** Rows may change in their status, and rows may go that are stale from then on. */
  lemma QuietConsistent(s: State, s': State)
    requires Consistent(s)
    requires s'.log == s.log && s'.used == s.used && s'.raw == s.raw && s.stale <= s'.stale
    requires forall id :: id in s'.table ==> id in s.table && s'.table[id] == s.table[id].(status := s'.table[id].status)
    requires forall id :: id in s.table && id !in s'.table ==> id in s'.stale
    ensures Consistent(s')
  {
    forall id ensures RowAt(s', id) && ReplayAt(s', id) && RawAt(s', id) {
      assert RowAt(s, id) && ReplayAt(s, id) && RawAt(s, id);
    }
    forall i | 0 <= i < |s.log| ensures EntryAt(s', i) {
      assert EntryAt(s, i);
    }
  }

  /** The Mark names a message of the table and could name a user, and its receipt is written. */
  predicate Recorded(s: State, op: Op)
    requires op.Mark?
  {
    && TrimSpace(op.message) != "" && TrimSpace(op.user) != "" && op.failAt != 1
    && Canon(op.message).Some? && Canon(op.user).Some? && Canon(op.message).value in s.table
  }

  /** A Mark records the receipt, and then the status unless that fails, or changes nothing. */
  lemma MarkDoes(s: State, op: Op)
    requires op.Mark?
    ensures var s' := Step(s, op);
            if Recorded(s, op) then
              var id, user := Canon(op.message).value, Canon(op.user).value;
              && s' == s.(receipts := s'.receipts, table := s'.table)
              && s'.receipts == s.receipts[(id, user) := op.status]
              && s'.table == if op.failAt == 2 then s.table else s.table[id := s.table[id].(status := op.status)]
            else s' == s
  {
  }

  lemma MarkKeeps(s: State, op: Op, id: string)
    requires op.Mark? && id in s.table
    ensures var t := Step(s, op).table; id in t && t[id] == s.table[id].(status := t[id].status)
  {
    MarkDoes(s, op);
  }

  lemma MarkConsistent(s: State, op: Op)
    requires Consistent(s) && op.Mark?
    ensures Consistent(Step(s, op))
  {
    MarkDoes(s, op);
    QuietConsistent(s, Step(s, op));
  }

  lemma DropConsistent(s: State, op: Op)
    requires Consistent(s) && op.DropRoom?
    ensures Consistent(Step(s, op))
  {
    QuietConsistent(s, Step(s, op));
  }

  lemma AnnounceKeeps(s: State, id: string, room: string, payload: Payload, fate: PublishFate, answer: Message)
    ensures var s' := Announce(s, id, room, payload, fate, answer).0;
            s'.table == s.table && s'.used == s.used && s'.receipts == s.receipts
  {
  }

  lemma SendKeeps(s: State, op: Op)
    requires op.Send?
    ensures Step(s, op).used == s.used + {op.id} && Step(s, op).receipts == s.receipts
    ensures Step(s, op).table == if Accepted(op) then s.table[op.id := RowOf(Composed(op)).value] else s.table
  {
    var s1, msg := s.(used := s.used + {op.id}), Composed(op);
    SendDoes(s, op);
    if Accepted(op) {
      AnnounceKeeps(s1.(table := s.table[op.id := RowOf(msg).value]), op.id, op.room, Posted(msg), op.fate, msg);
    }
  }

  lemma EditKeeps(s: State, op: Op)
    requires op.Edit?
    ensures Step(s, op).used == s.used && Step(s, op).receipts == s.receipts
    ensures Step(s, op).table == if Granted(s, op) then s.table[Target(op).value := Edited(s, op)] else s.table
  {
    EditDoes(s, op);
    if Granted(s, op) {
      var id, msg := Target(op).value, Edited(s, op);
      AnnounceKeeps(s.(table := s.table[id := msg]), id, msg.room, Posted(msg), op.fate, msg);
    }
  }

  lemma DeleteKeeps(s: State, op: Op)
    requires op.Delete?
    ensures Step(s, op).used == s.used
    ensures Step(s, op).table == if Granted(s, op) then s.table - {Target(op).value} else s.table
    ensures Step(s, op).receipts == if Granted(s, op) then Kept(s.receipts, {Target(op).value}) else s.receipts
  {
    DeleteDoes(s, op);
    if Granted(s, op) {
      var id, msg := Target(op).value, s.table[Target(op).value];
      AnnounceKeeps(Without(s, {id}), id, msg.room, Deleted(msg.id, msg.room), op.fate, msg);
    }
  }

  lemma UsedGrows(s: State, op: Op)
    ensures s.used <= Step(s, op).used
  {
    match op
    case Send(_, _, _, _, _, _, _, _) => SendKeeps(s, op);
    case Edit(_, _, _, _, _, _) => EditKeeps(s, op);
    case Delete(_, _, _, _) => DeleteKeeps(s, op);
    case Mark(_, _, _, _) =>
    case DropRoom(_) =>
  }

  lemma StepConsistent(s: State, op: Op)
    requires Consistent(s) && Fresh(s, op)
    ensures Consistent(Step(s, op)) && s.used <= Step(s, op).used
  {
    UsedGrows(s, op);
    match op {
      case Send(_, _, _, _, _, _, _, _) => SendConsistent(s, op);
      case Edit(_, _, _, _, _, _) => EditConsistent(s, op);
      case Delete(_, _, _, _) => DeleteConsistent(s, op);
      case Mark(_, _, _, _) => MarkConsistent(s, op);
      case DropRoom(_) => DropConsistent(s, op);
    }
  }

  lemma {:induction false} RunConsistent(s: State, ops: seq<Op>)
    requires Consistent(s) && FreshRun(s, ops)
    ensures Consistent(Run(s, ops))
    decreases |ops|
  {
    if ops != [] {
      StepConsistent(s, ops[0]);
      RunConsistent(Step(s, ops[0]), ops[1..]);
    }
  }

  lemma EmptyIsConsistent()
    ensures Consistent(EMPTY)
  {
  }

  /** After every run, whatever failed, for each id whose latest change went out: the
      replayed log and the table both know it or neither does, up to the spelling of its
      room and sender; and they agree to the letter exactly if its latest publication
      spelled these as the table does. Nothing about an id follows its deletion. */
  lemma ReplayAgrees(ops: seq<Op>, id: string)
    requires FreshRun(EMPTY, ops) && id !in Run(EMPTY, ops).stale
    ensures AgreeInMeaning(Run(EMPTY, ops), id)
    ensures AgreeOn(Run(EMPTY, ops), id) <==> id !in Run(EMPTY, ops).raw
    ensures NothingAfterDelete(Run(EMPTY, ops).log)
  {
    EmptyIsConsistent();
    RunConsistent(EMPTY, ops);
    var s := Run(EMPTY, ops);
    assert RowAt(s, id) && ReplayAt(s, id) && RawAt(s, id);
  }

  // ----- when the spelling differs -----

  predicate GoesOut(fate: PublishFate) {
    fate.Published? || fate.Unacked?
  }

  /** The call stores and publishes a new message whose room or sender is not spelled
      as the table will have it. */
  predicate SentRaw(op: Op, id: string) {
    && op.Send? && op.id == id && Accepted(op) && GoesOut(op.fate)
    && !(Canonical(op.room) && Canonical(op.sender))
  }

  /** The call is an Edit or a Delete of id that is published. */
  predicate Reannounced(s: State, op: Op, id: string) {
    (op.Edit? || op.Delete?) && Target(op) == Some(id) && Granted(s, op) && GoesOut(op.fate)
  }

  lemma AnnounceRaw(s: State, id: string, room: string, payload: Payload, fate: PublishFate, answer: Message, x: string)
    ensures var s' := Announce(s, id, room, payload, fate, answer).0;
            x in s'.raw <==> if x == id && GoesOut(fate) then IsRaw(payload) else x in s.raw
  {
  }

  lemma SendRaw(s: State, op: Op, id: string)
    requires op.Send? && (op.id == id ==> id !in s.raw)
    ensures id in Step(s, op).raw <==> SentRaw(op, id) || id in s.raw
  {
    SendDoes(s, op);
    if Accepted(op) {
      var s1, msg := s.(used := s.used + {op.id}), Composed(op);
      AnnounceRaw(s1.(table := s1.table[op.id := RowOf(msg).value]), op.id, op.room, Posted(msg), op.fate, msg, id);
    }
  }

  lemma EditRaw(s: State, op: Op, id: string)
    requires Consistent(s) && op.Edit?
    ensures id in Step(s, op).raw <==> id in s.raw && !Reannounced(s, op, id)
  {
    EditDoes(s, op);
    if Granted(s, op) {
      var t, msg := Target(op).value, Edited(s, op);
      EditedIsSpelt(s, op);
      AnnounceRaw(s.(table := s.table[t := msg]), t, msg.room, Posted(msg), op.fate, msg, id);
    }
  }

  lemma EditedIsSpelt(s: State, op: Op)
    requires Consistent(s) && op.Edit? && Target(op).Some? && Target(op).value in s.table
    ensures IsRow(Edited(s, op)) && SpeltAsStored(Edited(s, op))
  {
    assert RowAt(s, Target(op).value);
    EditedIsRow(s.table[Target(op).value], TrimSpace(op.content), op.now);
    RowIsSpeltAsStored(Edited(s, op));
  }

  lemma DeleteRaw(s: State, op: Op, id: string)
    requires op.Delete?
    ensures id in Step(s, op).raw <==> id in s.raw && !Reannounced(s, op, id)
  {
    DeleteDoes(s, op);
    if Granted(s, op) {
      var t, msg := Target(op).value, s.table[Target(op).value];
      AnnounceRaw(Without(s, {t}), t, msg.room, Deleted(msg.id, msg.room), op.fate, msg, id);
    }
  }

  lemma StepRaw(s: State, op: Op, id: string)
    requires Consistent(s) && Fresh(s, op)
    ensures id in Step(s, op).raw <==> SentRaw(op, id) || (id in s.raw && !Reannounced(s, op, id))
  {
    match op
    case Send(_, _, _, _, _, _, _, _) =>
      RawIsUsed(s, id);
      SendRaw(s, op, id);
    case Edit(_, _, _, _, _, _) => EditRaw(s, op, id);
    case Delete(_, _, _, _) => DeleteRaw(s, op, id);
    case Mark(_, _, _, _) =>
    case DropRoom(_) =>
  }

  lemma RawIsUsed(s: State, id: string)
    requires Consistent(s)
    ensures id in s.raw ==> id in s.used
  {
    if id in s.raw {
      RawIsReplayed(s, id);
      assert s.log[..|s.log|] == s.log;
      ReplayedIsUsed(s, |s.log|, id);
    }
  }

  lemma RawIsReplayed(s: State, id: string)
    requires Consistent(s) && id in s.raw
    ensures id in Replay(s.log)
  {
    assert RawAt(s, id);
  }

  lemma {:induction false} ReplayedIsUsed(s: State, n: nat, id: string)
    requires forall i :: 0 <= i < |s.log| ==> EntryAt(s, i)
    requires n <= |s.log| && id in Replay(s.log[..n])
    ensures id in s.used
    decreases n
  {
    if n > 0 {
      assert s.log[..n][..n - 1] == s.log[..n - 1] && s.log[..n][n - 1] == s.log[n - 1];
      assert EntryAt(s, n - 1);
      if id in Replay(s.log[..n - 1]) {
        ReplayedIsUsed(s, n - 1, id);
      }
    }
  }

  lemma {:induction false} RunSnoc(s: State, ops: seq<Op>, op: Op)
    ensures Run(s, ops + [op]) == Step(Run(s, ops), op)
    ensures FreshRun(s, ops + [op]) <==> FreshRun(s, ops) && Fresh(Run(s, ops), op)
    decreases |ops|
  {
    if ops == [] {
      assert ([] + [op])[1..] == [] && ([] + [op])[0] == op;
      assert Run(Step(s, op), []) == Step(s, op);
    } else {
      assert (ops + [op])[1..] == ops[1..] + [op];
      RunSnoc(Step(s, ops[0]), ops[1..], op);
    }
  }

  /** At some time it is sent, and not again announced after that. */
  predicate Standing(sent: seq<bool>, again: seq<bool>)
    requires |sent| == |again|
  {
    exists i :: 0 <= i < |sent| && sent[i] && forall j :: i < j < |again| ==> !again[j]
  }

  lemma StandingSnoc(sent: seq<bool>, again: seq<bool>, x: bool, y: bool)
    requires |sent| == |again|
    ensures Standing(sent + [x], again + [y]) <==> x || (Standing(sent, again) && !y)
  {
    var n := |sent|;
    var sent', again' := sent + [x], again + [y];
    if x {
      assert sent'[n];
    }
    if Standing(sent, again) && !y {
      var i :| 0 <= i < n && sent[i] && forall j :: i < j < n ==> !again[j];
      assert sent'[i] && forall j :: i < j < n + 1 ==> !again'[j];
    }
    if Standing(sent', again') && !x {
      var i :| 0 <= i < n + 1 && sent'[i] && forall j :: i < j < n + 1 ==> !again'[j];
      assert sent[i] && again'[n] == y;
      assert forall j :: i < j < n ==> again'[j] == again[j];
    }
  }

  /** Which calls of a run sent the message raw. */
  function SentAt(ops: seq<Op>, id: string): (r: seq<bool>)
    ensures |r| == |ops|
  {
    if ops == [] then []
    else SentAt(ops[..|ops| - 1], id) + [SentRaw(ops[|ops| - 1], id)]
  }

  /** Which calls of a run announced it again. */
  function AgainAt(ops: seq<Op>, id: string): (r: seq<bool>)
    ensures |r| == |ops|
  {
    if ops == [] then []
    else
      var front := ops[..|ops| - 1];
      AgainAt(front, id) + [Reannounced(Run(EMPTY, front), ops[|ops| - 1], id)]
  }

  /** Some call sent the message with another spelling, and no later one was an Edit or a
      Delete of it that was published. */
  predicate StillAsSent(ops: seq<Op>, id: string) {
    Standing(SentAt(ops, id), AgainAt(ops, id))
  }

  /** Over a run: the latest publication about an id is spelled otherwise than the table
      exactly if the Send was, and the message has not been edited or deleted since. */
  lemma {:induction false} RawIff(ops: seq<Op>, id: string)
    requires FreshRun(EMPTY, ops)
    ensures id in Run(EMPTY, ops).raw <==> StillAsSent(ops, id)
    decreases |ops|
  {
    if ops != [] {
      var n := |ops| - 1;
      var front := ops[..n];
      assert ops == front + [ops[n]];
      RunSnoc(EMPTY, front, ops[n]);
      EmptyIsConsistent();
      RunConsistent(EMPTY, front);
      RawIff(front, id);
      StepRaw(Run(EMPTY, front), ops[n], id);
      StandingSnoc(SentAt(front, id), AgainAt(front, id), SentRaw(ops[n], id),
                   Reannounced(Run(EMPTY, front), ops[n], id));
      AtMostOneKind(Run(EMPTY, front), ops[n], id);
    }
  }

  lemma AtMostOneKind(s: State, op: Op, id: string)
    ensures SentRaw(op, id) ==> !Reannounced(s, op, id)
  {
  }

  // ----- the whole table -----

  /** No publication is lost and no room is deleted. */
  predicate Faithful(ops: seq<Op>) {
    forall i :: 0 <= i < |ops| ==>
      && !ops[i].DropRoom?
      && (ops[i].Send? || ops[i].Edit? || ops[i].Delete? ==> ops[i].fate.Published? || ops[i].fate.Unacked?)
  }

  lemma {:induction false} FaithfulIsNeverStale(s: State, ops: seq<Op>)
    requires Faithful(ops)
    ensures Run(s, ops).stale <= s.stale
    decreases |ops|
  {
    if ops != [] {
      assert Faithful(ops[1..]);
      assert Step(s, ops[0]).stale <= s.stale;
      FaithfulIsNeverStale(Step(s, ops[0]), ops[1..]);
    }
  }

  /** Of an id whose latest change went out, log and table say the same exactly if it does
      not stand in the log as it was sent in another spelling. */
  lemma AgreeIff(ops: seq<Op>, id: string)
    requires FreshRun(EMPTY, ops) && id !in Run(EMPTY, ops).stale
    ensures AgreeOn(Run(EMPTY, ops), id) <==> !StillAsSent(ops, id)
  {
    ReplayAgrees(ops, id);
    RawIff(ops, id);
  }

  /** With nothing lost, the log rebuilds the table exactly if this holds of no id. */
  lemma ReplayRebuildsTable(ops: seq<Op>)
    requires FreshRun(EMPTY, ops) && Faithful(ops)
    ensures var s := Run(EMPTY, ops);
            Replay(s.log) == Project(s.table) <==> forall id :: !StillAsSent(ops, id)
  {
    var s := Run(EMPTY, ops);
    FaithfulIsNeverStale(EMPTY, ops);
    forall id ensures AgreeOn(s, id) <==> !StillAsSent(ops, id) {
      AgreeIff(ops, id);
    }
    AgreementIsEquality(s);
  }

  lemma AgreementIsEquality(s: State)
    ensures Replay(s.log) == Project(s.table) <==> forall id :: AgreeOn(s, id)
  {
    var replayed, projected := Replay(s.log), Project(s.table);
    if forall id :: AgreeOn(s, id) {
      forall id
        ensures id in replayed <==> id in projected
        ensures id in replayed ==> replayed[id] == projected[id]
      {
        assert AgreeOn(s, id);
      }
      assert replayed.Keys == projected.Keys;
    }
    if replayed == projected {
      forall id ensures AgreeOn(s, id) {
        assert id in replayed <==> id in projected;
      }
    }
  }

  /** Every Send names its room and its sender in canonical form. */
  predicate SendsCanonical(ops: seq<Op>) {
    forall i :: 0 <= i < |ops| && ops[i].Send? ==> Canonical(ops[i].room) && Canonical(ops[i].sender)
  }

  lemma {:induction false} NoneSentRaw(ops: seq<Op>, id: string)
    requires SendsCanonical(ops)
    ensures forall i :: 0 <= i < |ops| ==> !SentAt(ops, id)[i]
    decreases |ops|
  {
    if ops != [] {
      var n := |ops| - 1;
      assert SendsCanonical(ops[..n]);
      NoneSentRaw(ops[..n], id);
      assert !SentRaw(ops[n], id);
    }
  }

  /** In particular it does if all ids come in canonical form. */
  lemma CanonicalSendsRebuild(ops: seq<Op>)
    requires FreshRun(EMPTY, ops) && Faithful(ops) && SendsCanonical(ops)
    ensures Replay(Run(EMPTY, ops).log) == Project(Run(EMPTY, ops).table)
  {
    ReplayRebuildsTable(ops);
    forall id ensures !StillAsSent(ops, id) {
      NoneSentRaw(ops, id);
    }
  }

  // ----- through the relay -----

  /** What a listener to the relayed room events ends up with. */
  function Heard(log: seq<Publication>): map<string, Brief> {
    if log == [] then map[]
    else
      var before, last := Heard(log[..|log| - 1]), log[|log| - 1];
      match Dispatch(last.channel, last.payload)
      case Broadcast(_, ReceiveMessage(msg)) => before[msg.id := BriefOf(msg)]
      case Broadcast(_, MessageDeleted(id, _)) => before - {id}
      case _ => before
  }

  function RoomOf(p: Payload): string {
    match p
    case Posted(msg) => msg.room
    case Deleted(_, room) => room
    case _ => ""
  }

  /** Every publication is on the channel of the room it speaks of. */
  predicate OnItsChannel(log: seq<Publication>) {
    forall i :: 0 <= i < |log| ==>
      && (log[i].payload.Posted? || log[i].payload.Deleted?)
      && RoomOf(log[i].payload) != ""
      && log[i].channel == RoomChannel(RoomOf(log[i].payload))
  }

  predicate RoomsNamed(table: map<string, Message>) {
    forall id :: id in table ==> table[id].room != ""
  }

  lemma {:induction false} RunOnItsChannel(s: State, ops: seq<Op>)
    requires OnItsChannel(s.log) && RoomsNamed(s.table)
    ensures OnItsChannel(Run(s, ops).log)
    decreases |ops|
  {
    if ops != [] {
      StepOnItsChannel(s, ops[0]);
      RunOnItsChannel(Step(s, ops[0]), ops[1..]);
    }
  }

  lemma AnnounceOnItsChannel(s: State, id: string, room: string, payload: Payload, fate: PublishFate, answer: Message)
    requires OnItsChannel(s.log) && RoomsNamed(s.table)
    requires (payload.Posted? || payload.Deleted?) && RoomOf(payload) == room != ""
    ensures var s' := Announce(s, id, room, payload, fate, answer).0; OnItsChannel(s'.log) && RoomsNamed(s'.table)
  {
  }

  lemma SendOnItsChannel(s: State, op: Op)
    requires OnItsChannel(s.log) && RoomsNamed(s.table) && op.Send?
    ensures OnItsChannel(Step(s, op).log) && RoomsNamed(Step(s, op).table)
  {
    SendDoes(s, op);
    if Accepted(op) {
      var s1, msg := s.(used := s.used + {op.id}), Composed(op);
      RowIsRow(msg);
      RowIsSpeltAsStored(RowOf(msg).value);
      CanonicalIsUuidText(RowOf(msg).value.room);
      TrimmedAway(op.room);
      AnnounceOnItsChannel(s1.(table := s.table[op.id := RowOf(msg).value]), op.id, op.room, Posted(msg), op.fate, msg);
    }
  }

  lemma EditOnItsChannel(s: State, op: Op)
    requires OnItsChannel(s.log) && RoomsNamed(s.table) && op.Edit?
    ensures OnItsChannel(Step(s, op).log) && RoomsNamed(Step(s, op).table)
  {
    EditDoes(s, op);
    if Granted(s, op) {
      var id, msg := Target(op).value, Edited(s, op);
      AnnounceOnItsChannel(s.(table := s.table[id := msg]), id, msg.room, Posted(msg), op.fate, msg);
    }
  }

  lemma DeleteOnItsChannel(s: State, op: Op)
    requires OnItsChannel(s.log) && RoomsNamed(s.table) && op.Delete?
    ensures OnItsChannel(Step(s, op).log) && RoomsNamed(Step(s, op).table)
  {
    DeleteDoes(s, op);
    if Granted(s, op) {
      var id, msg := Target(op).value, s.table[Target(op).value];
      AnnounceOnItsChannel(Without(s, {id}), id, msg.room, Deleted(msg.id, msg.room), op.fate, msg);
    }
  }

  lemma StepOnItsChannel(s: State, op: Op)
    requires OnItsChannel(s.log) && RoomsNamed(s.table)
    ensures OnItsChannel(Step(s, op).log) && RoomsNamed(Step(s, op).table)
  {
    match op
    case Send(_, _, _, _, _, _, _, _) => SendOnItsChannel(s, op);
    case Edit(_, _, _, _, _, _) => EditOnItsChannel(s, op);
    case Delete(_, _, _, _) => DeleteOnItsChannel(s, op);
    case Mark(_, _, _, _) =>
    case DropRoom(_) =>
  }

  lemma TrimmedAway(s: string)
    ensures TrimSpace(s) != "" ==> s != ""
  {
  }

  lemma {:induction false} HeardIsReplayed(log: seq<Publication>)
    requires OnItsChannel(log)
    requires forall i :: 0 <= i < |log| ==> UuidText(RoomOf(log[i].payload))
    ensures Heard(log) == Replay(log)
    decreases |log|
  {
    if log != [] {
      var last := log[|log| - 1];
      RoomPublicationsArrive(RoomOf(last.payload), last.payload);
      HeardIsReplayed(log[..|log| - 1]);
    }
  }

  /** Every room that the log speaks of is in canonical form, if the Sends were. */
  predicate RoomsCanonical(log: seq<Publication>) {
    forall i :: 0 <= i < |log| ==> Canonical(RoomOf(log[i].payload))
  }

  lemma AnnounceRooms(s: State, id: string, room: string, payload: Payload, fate: PublishFate, answer: Message)
    requires RoomsCanonical(s.log) && Canonical(RoomOf(payload))
    ensures RoomsCanonical(Announce(s, id, room, payload, fate, answer).0.log)
  {
  }

  lemma StepRooms(s: State, op: Op)
    requires Consistent(s) && RoomsCanonical(s.log) && (op.Send? ==> Canonical(op.room))
    ensures RoomsCanonical(Step(s, op).log)
  {
    match op
    case Send(_, _, _, _, _, _, _, _) =>
      SendDoes(s, op);
      if Accepted(op) {
        var s1, msg := s.(used := s.used + {op.id}), Composed(op);
        AnnounceRooms(s1.(table := s.table[op.id := RowOf(msg).value]), op.id, op.room, Posted(msg), op.fate, msg);
      }
    case Edit(_, _, _, _, _, _) =>
      EditDoes(s, op);
      if Granted(s, op) {
        var id, msg := Target(op).value, Edited(s, op);
        assert RowAt(s, id);
        AnnounceRooms(s.(table := s.table[id := msg]), id, msg.room, Posted(msg), op.fate, msg);
      }
    case Delete(_, _, _, _) =>
      DeleteDoes(s, op);
      if Granted(s, op) {
        var id, msg := Target(op).value, s.table[Target(op).value];
        assert RowAt(s, id);
        AnnounceRooms(Without(s, {id}), id, msg.room, Deleted(msg.id, msg.room), op.fate, msg);
      }
    case Mark(_, _, _, _) =>
    case DropRoom(_) =>
  }

  lemma {:induction false} RunRooms(s: State, ops: seq<Op>)
    requires Consistent(s) && FreshRun(s, ops) && RoomsCanonical(s.log) && SendsCanonical(ops)
    ensures RoomsCanonical(Run(s, ops).log)
    decreases |ops|
  {
    if ops != [] {
      StepConsistent(s, ops[0]);
      StepRooms(s, ops[0]);
      assert forall i :: 0 <= i < |ops[1..]| ==> ops[1..][i] == ops[i + 1];
      RunRooms(Step(s, ops[0]), ops[1..]);
    }
  }

  /** Where all Sends name canonical ids, a websocket node that hears every publication
      can rebuild the table from its broadcasts. */
  lemma ListenersRebuildTable(ops: seq<Op>)
    requires FreshRun(EMPTY, ops) && Faithful(ops) && SendsCanonical(ops)
    ensures var s := Run(EMPTY, ops); Heard(s.log) == Project(s.table)
  {
    CanonicalSendsRebuild(ops);
    EmptyIsConsistent();
    RunOnItsChannel(EMPTY, ops);
    RunRooms(EMPTY, ops);
    CanonicalRoomsAreHeard(Run(EMPTY, ops).log);
  }

  lemma CanonicalRoomsAreHeard(log: seq<Publication>)
    requires OnItsChannel(log) && RoomsCanonical(log)
    ensures Heard(log) == Replay(log)
  {
    forall i | 0 <= i < |log| ensures UuidText(RoomOf(log[i].payload)) {
      CanonicalIsUuidText(RoomOf(log[i].payload));
    }
    HeardIsReplayed(log);
  }

  // ----- the hypotheses are needed -----

  /** A Send that names an existing room by another spelling of its id: the table has the
      id and the log has the spelling. */
  lemma RawSendDiverges(op: Op)
    requires op.Send? && SentRaw(op, op.id)
    ensures var s := Run(EMPTY, [op]);
            && FreshRun(EMPTY, [op]) && op.id !in s.stale
            && op.id in s.table && s.table[op.id] == RowOf(Composed(op)).value
            && op.id in Replay(s.log) && Replay(s.log)[op.id] == BriefOf(Composed(op))
            && !AgreeOn(s, op.id)
  {
    OneCall(op);
    OneSend(op);
    RowIsRow(Composed(op));
  }

  lemma OneCall(op: Op)
    ensures Run(EMPTY, [op]) == Step(EMPTY, op) && FreshRun(EMPTY, [op])
  {
    assert [op][1..] == [];
    assert Run(Step(EMPTY, op), []) == Step(EMPTY, op);
  }

  /** Such Sends exist: any id without its hyphens will do. */
  lemma BareRoomIsSentRaw(op: Op, room: string)
    requires op.Send? && Canonical(room) && op.room == WithoutHyphens(room) && Canonical(op.sender)
    requires TrimSpace(op.content) != "" && op.failAt == 0 && GoesOut(op.fate)
    ensures SentRaw(op, op.id) && RowOf(Composed(op)).value.room == room
  {
    BareIsAccepted(room);
    CanonicalIsUuidText(op.sender);
  }

  /** A room deletion removes messages that the log still shows. */
  lemma DroppedRoomDiverges(op: Op)
    requires op.Send? && Accepted(op) && GoesOut(op.fate)
    ensures var s := Run(EMPTY, [op, DropRoom(RowOf(Composed(op)).value.room)]);
            op.id !in s.table && op.id in Replay(s.log)
  {
    var drop := DropRoom(RowOf(Composed(op)).value.room);
    assert [op, drop] == [op] + [drop];
    RunSnoc(EMPTY, [op], drop);
    OneSend(op);
    Dropped(Run(EMPTY, [op]), op.id);
  }

  lemma Dropped(s: State, id: string)
    requires id in s.table
    ensures var s' := Step(s, DropRoom(s.table[id].room)); id !in s'.table && s'.log == s.log
  {
  }

  lemma OneSend(op: Op)
    requires op.Send? && Accepted(op) && GoesOut(op.fate)
    ensures var s := Run(EMPTY, [op]);
            && op.id in s.table && s.table[op.id] == RowOf(Composed(op)).value && op.id !in s.stale
            && op.id in Replay(s.log) && Replay(s.log)[op.id] == BriefOf(Composed(op))
  {
    OneCall(op);
    SendDoes(EMPTY, op);
    var p := Publication(RoomChannel(op.room), Posted(Composed(op)));
    ReplaySnoc([], p);
    assert Run(EMPTY, [op]).log == [] + [p];
  }

  // ----- no two publications of a message are the same -----

  predicate Posts(log: seq<Publication>, i: nat, id: string)
    requires i < |log|
  {
    log[i].payload.Posted? && log[i].payload.msg.id == id
  }

  /** Nothing published about id bears the stamp t. */
  predicate NewStamp(log: seq<Publication>, id: string, t: int) {
    forall i :: 0 <= i < |log| && Posts(log, i, id) ==> log[i].payload.msg.updated != t
  }

  /** An Edit's stamp is none under which its message was published before. */
  predicate Stamped(s: State, op: Op) {
    op.Edit? && Granted(s, op) ==> NewStamp(s.log, Target(op).value, Edited(s, op).updated)
  }

  predicate StampedRun(s: State, ops: seq<Op>)
    decreases |ops|
  {
    ops == [] || (Stamped(s, ops[0]) && StampedRun(Step(s, ops[0]), ops[1..]))
  }

  predicate Differing(log: seq<Publication>) {
    forall i, j :: 0 <= i < j < |log| && log[j].payload.Posted? && Posts(log, i, log[j].payload.msg.id) ==>
      log[i].payload.msg.updated != log[j].payload.msg.updated
  }

  lemma DifferingSnoc(log: seq<Publication>, p: Publication)
    requires Differing(log)
    requires p.payload.Posted? ==> NewStamp(log, p.payload.msg.id, p.payload.msg.updated)
    ensures Differing(log + [p])
  {
    forall i, j | 0 <= i < j < |log + [p]|
                  && (log + [p])[j].payload.Posted? && Posts(log + [p], i, (log + [p])[j].payload.msg.id)
      ensures (log + [p])[i].payload.msg.updated != (log + [p])[j].payload.msg.updated
    {
      if j == |log| {
        assert Posts(log, i, p.payload.msg.id);
      } else {
        assert Posts(log, i, log[j].payload.msg.id);
      }
    }
  }

  lemma AnnounceDiffers(s: State, id: string, room: string, payload: Payload, fate: PublishFate, answer: Message)
    requires Differing(s.log)
    requires payload.Posted? ==> NewStamp(s.log, payload.msg.id, payload.msg.updated)
    ensures Differing(Announce(s, id, room, payload, fate, answer).0.log)
  {
    DifferingSnoc(s.log, Publication(RoomChannel(room), payload));
  }

  lemma NewIsUnstamped(s: State, id: string, t: int)
    requires Consistent(s) && id !in s.used
    ensures NewStamp(s.log, id, t)
  {
    forall i | 0 <= i < |s.log| ensures !Posts(s.log, i, id) {
      assert EntryAt(s, i);
    }
  }

  lemma SendDiffers(s: State, op: Op)
    requires Consistent(s) && Differing(s.log) && op.Send? && Fresh(s, op)
    ensures Differing(Step(s, op).log)
  {
    SendDoes(s, op);
    if Accepted(op) {
      var s1, msg := s.(used := s.used + {op.id}), Composed(op);
      NewIsUnstamped(s, op.id, op.now);
      AnnounceDiffers(s1.(table := s.table[op.id := RowOf(msg).value]), op.id, op.room, Posted(msg), op.fate, msg);
    }
  }

  lemma EditDiffers(s: State, op: Op)
    requires Consistent(s) && Differing(s.log) && op.Edit? && Stamped(s, op)
    ensures Differing(Step(s, op).log)
  {
    EditDoes(s, op);
    if Granted(s, op) {
      var id, msg := Target(op).value, Edited(s, op);
      assert RowAt(s, id);
      AnnounceDiffers(s.(table := s.table[id := msg]), id, msg.room, Posted(msg), op.fate, msg);
    }
  }

  lemma DeleteDiffers(s: State, op: Op)
    requires Differing(s.log) && op.Delete?
    ensures Differing(Step(s, op).log)
  {
    DeleteDoes(s, op);
    if Granted(s, op) {
      var id, msg := Target(op).value, s.table[Target(op).value];
      AnnounceDiffers(Without(s, {id}), id, msg.room, Deleted(msg.id, msg.room), op.fate, msg);
    }
  }

  lemma {:induction false} RunDiffers(s: State, ops: seq<Op>)
    requires Consistent(s) && Differing(s.log) && FreshRun(s, ops) && StampedRun(s, ops)
    ensures Differing(Run(s, ops).log)
    decreases |ops|
  {
    if ops != [] {
      StepConsistent(s, ops[0]);
      match ops[0] {
        case Send(_, _, _, _, _, _, _, _) => SendDiffers(s, ops[0]);
        case Edit(_, _, _, _, _, _) => EditDiffers(s, ops[0]);
        case Delete(_, _, _, _) => DeleteDiffers(s, ops[0]);
        case Mark(_, _, _, _) =>
        case DropRoom(_) =>
      }
      RunDiffers(Step(s, ops[0]), ops[1..]);
    }
  }

  /** In a run with fresh ids and new stamps, what is published of messages is never
      published again. */
  lemma PublicationsDiffer(ops: seq<Op>, i: nat, j: nat)
    requires FreshRun(EMPTY, ops) && StampedRun(EMPTY, ops)
    requires i < j < |Run(EMPTY, ops).log| && Run(EMPTY, ops).log[j].payload.Posted?
    ensures Run(EMPTY, ops).log[i].payload != Run(EMPTY, ops).log[j].payload
  {
    EmptyIsConsistent();
    RunDiffers(EMPTY, ops);
    EntriesDiffer(Run(EMPTY, ops).log, i, j);
  }

  lemma EntriesDiffer(log: seq<Publication>, i: nat, j: nat)
    requires Differing(log) && i < j < |log| && log[j].payload.Posted?
    ensures log[i].payload != log[j].payload
  {
    if log[i].payload == log[j].payload {
      assert Posts(log, i, log[j].payload.msg.id);
    }
  }

  // ----- receipts -----

  /** Every receipt is of a message in the table. */
  predicate ReceiptsRefer(s: State) {
    forall k :: k in s.receipts ==> k.0 in s.table
  }

  lemma DropRefers(s: State, room: string)
    requires ReceiptsRefer(s)
    ensures ReceiptsRefer(Step(s, DropRoom(room)))
  {
  }

  lemma MarkRefers(s: State, op: Op)
    requires ReceiptsRefer(s) && op.Mark?
    ensures ReceiptsRefer(Step(s, op))
  {
    MarkDoes(s, op);
  }

  lemma StepRefers(s: State, op: Op)
    requires ReceiptsRefer(s)
    ensures ReceiptsRefer(Step(s, op))
  {
    match op
    case Send(_, _, _, _, _, _, _, _) => SendKeeps(s, op);
    case Edit(_, _, _, _, _, _) => EditKeeps(s, op);
    case Delete(_, _, _, _) => DeleteKeeps(s, op);
    case Mark(_, _, _, _) => MarkRefers(s, op);
    case DropRoom(room) => DropRefers(s, room);
  }

  /** In every run, whatever fails, no receipt outlives its message. */
  lemma {:induction false} RunRefers(s: State, ops: seq<Op>)
    requires ReceiptsRefer(s)
    ensures ReceiptsRefer(Run(s, ops))
    decreases |ops|
  {
    if ops != [] {
      StepRefers(s, ops[0]);
      RunRefers(Step(s, ops[0]), ops[1..]);
    }
  }

  // ----- who may change what -----

  /** From s to s' a message keeps its room, sender and creation time; only its
      sender's Edit changes the content, and only its sender's Delete or the
      deletion of its room removes it. */
  predicate ChangedByRight(s: State, op: Op, s': State, id: string)
    requires id in s.table
  {
    var m := s.table[id];
    if id in s'.table then
      var m' := s'.table[id];
      && m'.id == m.id && m'.room == m.room && m'.sender == m.sender && m'.created == m.created
      && (m'.content != m.content ==>
            op.Edit? && Target(op) == Some(id) && TrimSpace(op.user) == m.sender && m'.content == TrimSpace(op.content))
    else
      || (op.Delete? && Target(op) == Some(id) && TrimSpace(op.user) == m.sender)
      || (op.DropRoom? && op.room == m.room)
  }

  lemma SendByRight(s: State, op: Op, id: string)
    requires op.Send? && op.id != id && id in s.table
    ensures ChangedByRight(s, op, Step(s, op), id)
  {
    SendKeeps(s, op);
    assert Step(s, op).table[id] == s.table[id];
  }

  lemma EditByRight(s: State, op: Op, id: string)
    requires op.Edit? && id in s.table
    ensures ChangedByRight(s, op, Step(s, op), id)
  {
    EditKeeps(s, op);
    if Granted(s, op) && Target(op).value == id {
      assert Step(s, op).table[id] == Edited(s, op);
    } else {
      assert Step(s, op).table[id] == s.table[id];
    }
  }

  lemma DeleteByRight(s: State, op: Op, id: string)
    requires op.Delete? && id in s.table
    ensures ChangedByRight(s, op, Step(s, op), id)
  {
    DeleteKeeps(s, op);
    if !(Granted(s, op) && Target(op).value == id) {
      assert Step(s, op).table[id] == s.table[id];
    }
  }

  lemma MarkByRight(s: State, op: Op, id: string)
    requires op.Mark? && id in s.table
    ensures ChangedByRight(s, op, Step(s, op), id)
  {
    MarkKeeps(s, op, id);
  }

  lemma DropByRight(s: State, op: Op, id: string)
    requires op.DropRoom? && id in s.table
    ensures ChangedByRight(s, op, Step(s, op), id)
  {
    assert Step(s, op).table == s.table - InRoom(s.table, op.room);
  }

  lemma StepByRight(s: State, op: Op, id: string)
    requires Fresh(s, op) && id in s.used && id in s.table
    ensures ChangedByRight(s, op, Step(s, op), id)
  {
    match op
    case Send(_, _, _, _, _, _, _, _) => SendByRight(s, op, id);
    case Edit(_, _, _, _, _, _) => EditByRight(s, op, id);
    case Delete(_, _, _, _) => DeleteByRight(s, op, id);
    case Mark(_, _, _, _) => MarkByRight(s, op, id);
    case DropRoom(_) => DropByRight(s, op, id);
  }

  lemma OnlySendAdds(s: State, op: Op, id: string)
    requires id in Step(s, op).table && id !in s.table
    ensures op.Send? && op.id == id
  {
    match op
    case Send(_, _, _, _, _, _, _, _) => SendKeeps(s, op);
    case Edit(_, _, _, _, _, _) => EditKeeps(s, op);
    case Delete(_, _, _, _) => DeleteKeeps(s, op);
    case Mark(_, _, _, _) =>
    case DropRoom(_) =>
  }

  /** Once gone, a message's id never comes back. */
  lemma {:induction false} GoneForGood(s: State, ops: seq<Op>, id: string)
    requires Consistent(s) && FreshRun(s, ops) && id in s.used && id !in s.table
    ensures id !in Run(s, ops).table
    decreases |ops|
  {
    if ops != [] {
      StepConsistent(s, ops[0]);
      if id in Step(s, ops[0]).table {
        OnlySendAdds(s, ops[0], id);
      }
      GoneForGood(Step(s, ops[0]), ops[1..], id);
    }
  }

  /** Over every run a message that is still there has the room and the author it had. */
  lemma {:induction false} RoomAndAuthorAreFixed(s: State, ops: seq<Op>, id: string)
    requires Consistent(s) && FreshRun(s, ops) && id in s.table && id in Run(s, ops).table
    ensures Run(s, ops).table[id].room == s.table[id].room
    ensures Run(s, ops).table[id].sender == s.table[id].sender
    decreases |ops|
  {
    if ops != [] {
      var s1 := Step(s, ops[0]);
      StepConsistent(s, ops[0]);
      assert RowAt(s, id);
      StepByRight(s, ops[0], id);
      if id !in s1.table {
        GoneForGood(s1, ops[1..], id);
      } else {
        RoomAndAuthorAreFixed(s1, ops[1..], id);
      }
    }
  }
}
