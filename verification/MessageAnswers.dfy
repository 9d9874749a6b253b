/** What each call of the message service stores, publishes and answers, and what the
    calls about one id make of its row. */
module MessageAnswers {
  import opened Text
  import opened Uuid
  import opened Relay
  import opened MessageSpec
  import opened MessageReplay

  predicate Acknowledged(fate: PublishFate) {
    fate.Published? || fate.NoPublisher?
  }

  /** The log with one publication more, if the call's publication goes out. */
  function Logged(log: seq<Publication>, room: string, payload: Payload, fate: PublishFate): seq<Publication> {
    if GoesOut(fate) then log + [Publication("rooms:" + room + ":messages", payload)] else log
  }

  function Replied(msg: Message, fate: PublishFate): Reply {
    if Acknowledged(fate) then Ok(msg) else Err(Internal)
  }

  /** The end of each call: table and receipts stay as the call made them. */
  lemma Announced(s: State, id: string, room: string, payload: Payload, fate: PublishFate, msg: Message)
    ensures var (s', r) := Announce(s, id, room, payload, fate, msg);
            && s'.table == s.table && s'.receipts == s.receipts
            && s'.log == Logged(s.log, room, payload, fate) && r == Replied(msg, fate)
  {
    assert RoomChannel(room) == "rooms:" + room + ":messages";
  }

  /** An accepted Send stores its trimmed content under the ids that its texts name, as new
      and stamped with its time in microseconds, and publishes and answers the same with
      the texts and the time it was given. Any other Send changes nothing. */
  lemma SendDoesExactly(s: State, op: Op)
    requires op.Send?
    ensures var (s', r) := ApplySend(s, op);
            if Accepted(op) then
              var sent := Message(op.id, op.room, op.sender, TrimSpace(op.content), SENT, op.now, op.now);
              var row := Message(op.id, Canon(op.room).value, Canon(op.sender).value, TrimSpace(op.content), SENT,
                                 Micros(op.now), Micros(op.now));
              && s'.table == s.table[op.id := row] && s'.receipts == s.receipts
              && s'.log == Logged(s.log, op.room, Posted(sent), op.fate)
              && r == Replied(sent, op.fate)
            else s' == s && r.Err?
  {
    SendAnswers(s, op);
    if Accepted(op) {
      var msg := Composed(op);
      Announced(s.(table := s.table[op.id := RowOf(msg).value]), op.id, op.room, Posted(msg), op.fate, msg);
    }
  }

  lemma SendRefusals(s: State, op: Op)
    requires op.Send?
    ensures var r := ApplySend(s, op).1;
            if TrimSpace(op.room) == "" then r == Err(InvalidRoomID)
            else if TrimSpace(op.sender) == "" then r == Err(InvalidSenderID)
            else TrimSpace(op.content) == "" && op.attachments == 0 ==> r == Err(InvalidContent)
  {
  }

  /** An Edit that is granted goes on to announce, and any other is refused. */
  lemma EditReaches(s: State, op: Op)
    requires op.Edit?
    ensures if Granted(s, op) then
              var id, msg := Target(op).value, Edited(s, op);
              ApplyEdit(s, op) == Announce(s.(table := s.table[id := msg]), id, msg.room, Posted(msg), op.fate, msg)
            else ApplyEdit(s, op).0 == s && ApplyEdit(s, op).1.Err?
  {
    NoTarget(op);
  }

  /** An Edit by the sender of an existing message gives it the trimmed content and the time
      of the Edit, and nothing else; the row is published and answered. Any other Edit
      changes nothing. */
  lemma EditDoesExactly(s: State, op: Op)
    requires op.Edit?
    ensures var (s', r) := ApplyEdit(s, op);
            if Granted(s, op) then
              var m := s.table[Target(op).value];
              var row := Message(m.id, m.room, m.sender, TrimSpace(op.content), m.status, m.created, Micros(op.now));
              && s'.table == s.table[Target(op).value := row] && s'.receipts == s.receipts
              && s'.log == Logged(s.log, m.room, Posted(row), op.fate)
              && r == Replied(row, op.fate)
            else s' == s && r.Err?
  {
    EditReaches(s, op);
    if Granted(s, op) {
      var id, msg := Target(op).value, Edited(s, op);
      Announced(s.(table := s.table[id := msg]), id, msg.room, Posted(msg), op.fate, msg);
    }
  }

  /** What becomes of a call that names a message badly, or one that is not its user's. */
  predicate LookupRefuses(s: State, op: Op, r: Reply)
    requires op.Edit? || op.Delete?
  {
    var target := Target(op);
    if target.None? || op.failAt == 1 then r == Err(Internal)
    else if target.value !in s.table then r == Err(NotFound)
    else s.table[target.value].sender != TrimSpace(op.user) ==> r == Err(NotAllowed)
  }

  lemma EditRefusals(s: State, op: Op)
    requires op.Edit?
    ensures var r := ApplyEdit(s, op).1;
            if TrimSpace(op.message) == "" then r == Err(InvalidMessageID)
            else if TrimSpace(op.user) == "" then r == Err(InvalidUserID)
            else if TrimSpace(op.content) == "" then r == Err(InvalidContent)
            else LookupRefuses(s, op, r)
  {
  }

  lemma DeleteReaches(s: State, op: Op)
    requires op.Delete?
    ensures if Granted(s, op) then
              var id, msg := Target(op).value, s.table[Target(op).value];
              ApplyDelete(s, op) == Announce(Without(s, {id}), id, msg.room, Deleted(msg.id, msg.room), op.fate, msg)
            else ApplyDelete(s, op).0 == s && ApplyDelete(s, op).1.Err?
  {
    NoTarget(op);
  }

  /** The receipts of these messages have gone, and the others are as they were. */
  predicate OnlyReceiptsGone(s: State, s': State, ids: set<string>) {
    && (forall k :: k in s'.receipts ==> k in s.receipts && k.0 !in ids && s'.receipts[k] == s.receipts[k])
    && (forall k :: k in s.receipts && k.0 !in ids ==> k in s'.receipts)
  }

  /** A Delete by the sender of an existing message removes it and its receipts, and nothing
      else; it is published and answered. Any other Delete changes nothing. */
  lemma DeleteDoesExactly(s: State, op: Op)
    requires op.Delete?
    ensures var (s', r) := ApplyDelete(s, op);
            if Granted(s, op) then
              var id, m := Target(op).value, s.table[Target(op).value];
              && s'.table == s.table - {id} && OnlyReceiptsGone(s, s', {id})
              && s'.log == Logged(s.log, m.room, Deleted(m.id, m.room), op.fate)
              && r == Replied(m, op.fate)
            else s' == s && r.Err?
  {
    DeleteReaches(s, op);
    if Granted(s, op) {
      var id, msg := Target(op).value, s.table[Target(op).value];
      Announced(Without(s, {id}), id, msg.room, Deleted(msg.id, msg.room), op.fate, msg);
    }
  }

  lemma DeleteRefusals(s: State, op: Op)
    requires op.Delete?
    ensures var r := ApplyDelete(s, op).1;
            if TrimSpace(op.message) == "" then r == Err(InvalidMessageID)
            else if TrimSpace(op.user) == "" then r == Err(InvalidUserID)
            else LookupRefuses(s, op, r)
  {
  }

  /** A Mark is answered Ok exactly if it recorded both the receipt and the status. */
  lemma MarkAnswers(s: State, op: Op)
    requires op.Mark?
    ensures var r := ApplyMark(s, op).1;
            && (r.Ok? <==> Recorded(s, op) && op.failAt != 2)
            && (TrimSpace(op.message) == "" ==> r == Err(InvalidMessageID))
            && (TrimSpace(op.message) != "" && TrimSpace(op.user) == "" ==> r == Err(InvalidUserID))
  {
  }

  /** A room takes its messages and their receipts with it, and no others. */
  lemma DropTakes(s: State, room: string)
    ensures var s' := Step(s, DropRoom(room));
            && (forall id :: id in s'.table <==> id in s.table && s.table[id].room != room)
            && (forall id :: id in s'.table ==> s'.table[id] == s.table[id])
            && OnlyReceiptsGone(s, s', s.table.Keys - s'.table.Keys)
            && s'.log == s.log
  {
  }

  // ----- the row of an id is what the calls about it made of it -----

  /** What a call makes of the row of one id. */
  function RowAfter(row: Option<Message>, op: Op, id: string): Option<Message> {
    match op
    case Send(room, sender, content, _, own, now, _, _) =>
      if own == id && Accepted(op)
      then Some(Message(id, Canon(room).value, Canon(sender).value, TrimSpace(content), SENT, Micros(now), Micros(now)))
      else row
    case Edit(_, user, content, now, failAt, _) =>
      if MayChange(row, op, id) && TrimSpace(content) != ""
      then Some(row.value.(content := TrimSpace(content), updated := Micros(now)))
      else row
    case Delete(_, _, _, _) => if MayChange(row, op, id) then None else row
    case Mark(message, user, status, failAt) =>
      if row.Some? && TrimSpace(message) != "" && TrimSpace(user) != "" && Canon(message) == Some(id)
         && Canon(user).Some? && failAt != 1 && failAt != 2
      then Some(row.value.(status := status))
      else row
    case DropRoom(room) => if row.Some? && row.value.room == room then None else row
  }

  /** The call is about this row, by its sender, and no database call fails. */
  predicate MayChange(row: Option<Message>, op: Op, id: string)
    requires op.Edit? || op.Delete?
  {
    && row.Some? && Target(op) == Some(id) && op.failAt != 1 && op.failAt != 2
    && TrimSpace(op.user) != "" && TrimSpace(op.user) == row.value.sender
  }

  /** What a series of calls makes of it, one after the other, from nothing. */
  function RowHistory(ops: seq<Op>, id: string): Option<Message> {
    if ops == [] then None
    else RowAfter(RowHistory(ops[..|ops| - 1], id), ops[|ops| - 1], id)
  }

  function RowIn(s: State, id: string): Option<Message> {
    if id in s.table then Some(s.table[id]) else None
  }

  lemma StepRow(s: State, op: Op, id: string)
    ensures RowIn(Step(s, op), id) == RowAfter(RowIn(s, id), op, id)
  {
    match op
    case Send(_, _, _, _, own, _, _, _) => SendDoesExactly(s.(used := s.used + {own}), op);
    case Edit(_, _, _, _, _, _) => EditDoesExactly(s, op);
    case Delete(_, _, _, _) => DeleteDoesExactly(s, op);
    case Mark(_, _, _, _) => MarkDoes(s, op);
    case DropRoom(room) => DropTakes(s, room);
  }

  /** In every run, whatever fails, the row of an id depends on the calls about it alone:
      room, sender and creation are those of its Send, the content is that of its Send or of
      the last Edit its sender was granted, the status that of the last Mark; and it is gone
      once its sender or its room's deletion has removed it. */
  lemma {:induction false} RowIsItsHistory(ops: seq<Op>, id: string)
    ensures RowIn(Run(EMPTY, ops), id) == RowHistory(ops, id)
    decreases |ops|
  {
    if ops != [] {
      var front, op := ops[..|ops| - 1], ops[|ops| - 1];
      assert ops == front + [op];
      RunSnoc(EMPTY, front, op);
      RowIsItsHistory(front, id);
      StepRow(Run(EMPTY, front), op, id);
    }
  }

  /** What a call says, if it is a Send of id or an Edit of it. */
  predicate Says(op: Op, id: string, sender: string, content: string) {
    match op
    case Send(_, from, words, _, own, _, _, _) =>
      own == id && Canon(from) == Some(sender) && TrimSpace(words) == content
    case Edit(_, user, words, _, _, _) =>
      Target(op) == Some(id) && TrimSpace(user) == sender && TrimSpace(words) == content
    case _ => false
  }

  lemma SaidNowOrBefore(row: Option<Message>, op: Op, id: string)
    requires RowAfter(row, op, id).Some?
    ensures var m := RowAfter(row, op, id).value;
            Says(op, id, m.sender, m.content)
            || (row.Some? && row.value.sender == m.sender && row.value.content == m.content)
  {
  }

  /** Nobody's words are put into another's mouth: what a stored message says, its sender
      has said, in a Send or an Edit of it. */
  lemma {:induction false} WordsAreTheSenders(ops: seq<Op>, id: string)
    requires RowHistory(ops, id).Some?
    ensures var m := RowHistory(ops, id).value; exists i :: 0 <= i < |ops| && Says(ops[i], id, m.sender, m.content)
    decreases |ops|
  {
    if ops != [] {
      var n := |ops| - 1;
      var front := ops[..n];
      var m := RowHistory(ops, id).value;
      SaidNowOrBefore(RowHistory(front, id), ops[n], id);
      if !Says(ops[n], id, m.sender, m.content) {
        WordsAreTheSenders(front, id);
        var i :| 0 <= i < n && Says(front[i], id, m.sender, m.content);
        assert Says(ops[i], id, m.sender, m.content);
      }
    }
  }

  lemma StoredWordsAreTheSenders(ops: seq<Op>, id: string)
    requires id in Run(EMPTY, ops).table
    ensures var m := Run(EMPTY, ops).table[id]; exists i :: 0 <= i < |ops| && Says(ops[i], id, m.sender, m.content)
  {
    RowIsItsHistory(ops, id);
    WordsAreTheSenders(ops, id);
  }
}
