/** The write pump: queued messages leave in text frames, several to a frame
    separated by newlines, pings in between, and a close frame at the end. */
module WritePump {
  import opened Text

  const NEWLINE := '\n'

  const QUEUE_CAPACITY: nat := 256

  datatype Frame = TextFrame(payload: string) | Ping | Close

  /** Which call on the frame's writer fails, if any: NextWriter, the k-th Write, or Close.
      After a failed Write the Close of the frame fails too. */
  datatype Fault = NoFault | OpenFails | WriteFails(k: nat) | CloseFails

  /** One turn of the pump's select: the ticker fired, or the channel yielded and
      then reported how many more messages it was holding. */
  datatype Turn = Tick(ok: bool) | Receive(buffered: nat, fault: Fault)

  /** The turns ran out, the close frame went out, or a write failed. */
  datatype Outcome = Running | Closed | Broken

  predicate Works(turn: Turn) {
    if turn.Tick? then turn.ok else turn.fault == NoFault
  }

  predicate AllWork(turns: seq<Turn>) {
    forall t :: 0 <= t < |turns| ==> Works(turns[t])
  }

  /** A turn on which a write fails however much is queued. */
  predicate Fails(turn: Turn) {
    if turn.Tick? then !turn.ok else turn.fault == OpenFails || turn.fault == WriteFails(0) || turn.fault == CloseFails
  }

  /** How many messages leave behind the one received: those buffered, as far as there are. */
  function Behind(left: nat, buffered: nat): (n: nat)
    ensures n <= left && n <= buffered && n <= 256
    ensures n < left && n < 256 ==> n == buffered
  {
    var n := if buffered <= left then buffered else left;
    if n <= QUEUE_CAPACITY then n else QUEUE_CAPACITY
  }

  /** What a peer reads that splits every text frame on newlines. */
  function Decode(frames: seq<Frame>): seq<string> {
    if frames == [] then []
    else
      var last := frames[|frames| - 1];
      Decode(frames[..|frames| - 1]) + (if last.TextFrame? then Split(last.payload, NEWLINE) else [])
  }

  /** The text frames carry the messages, in order, one nonempty batch a frame. */
  ghost predicate Carries(frames: seq<Frame>, messages: seq<string>)
    decreases |frames|, 0
  {
    if frames == [] then messages == []
    else
      var front, last := frames[..|frames| - 1], frames[|frames| - 1];
      if last.TextFrame? then exists n :: EndsInBatch(front, last.payload, messages, n)
      else Carries(front, messages)
  }

  /** The last frame holds the messages from the n-th on. */
  ghost predicate EndsInBatch(front: seq<Frame>, payload: string, messages: seq<string>, n: int)
    decreases |front|, 1
  {
    0 <= n < |messages| && Carries(front, messages[..n]) && payload == Join(messages[n..], NEWLINE)
  }

  ghost predicate CarriesFirst(frames: seq<Frame>, queued: seq<string>, sent: nat) {
    sent <= |queued| && Carries(frames, queued[..sent])
  }

  /** A text frame holds the messages taken for it; for any other none are taken. */
  predicate Follows(frame: Frame, queued: seq<string>, sent: nat, taken: nat)
    requires sent <= taken <= |queued|
  {
    if frame.TextFrame? then sent < taken && frame.payload == Join(queued[sent..taken], NEWLINE) else sent == taken
  }

  lemma CarriesOneMore(frames: seq<Frame>, queued: seq<string>, sent: nat, taken: nat, frame: Frame)
    requires sent <= taken <= |queued| && Follows(frame, queued, sent, taken)
    requires CarriesFirst(frames, queued, sent)
    ensures CarriesFirst(frames + [frame], queued, taken)
  {
    var messages := queued[..taken];
    assert messages[..sent] == queued[..sent] && messages[sent..] == queued[sent..taken];
    assert (frames + [frame])[..|frames|] == frames;
    if frame.TextFrame? {
      assert EndsInBatch(frames, frame.payload, messages, sent);
    }
  }

  predicate NoClose(frames: seq<Frame>) {
    Close !in frames
  }

  lemma JoinSnoc(parts: seq<string>, part: string)
    requires parts != []
    ensures Join(parts + [part], NEWLINE) == Join(parts, NEWLINE) + [NEWLINE] + part
  {
    if |parts| == 1 {
      assert (parts + [part])[1..] == [part];
    } else {
      assert (parts + [part])[1..] == parts[1..] + [part];
      JoinSnoc(parts[1..], part);
      assert parts[0] + [NEWLINE] + (Join(parts[1..], NEWLINE) + [NEWLINE] + part)
          == (parts[0] + [NEWLINE] + Join(parts[1..], NEWLINE)) + [NEWLINE] + part;
    }
  }

  /** A batch and the message queued after it. */
  lemma JoinOneMore(queued: seq<string>, first: nat, next: nat)
    requires first < next < |queued|
    ensures Join(queued[first..next + 1], NEWLINE) == Join(queued[first..next], NEWLINE) + [NEWLINE] + queued[next]
  {
    assert queued[first..next + 1] == queued[first..next] + [queued[next]];
    JoinSnoc(queued[first..next], queued[next]);
  }

  /** How many of the first t turns are receives. */
  function Receives(turns: seq<Turn>, t: nat): nat
    requires t <= |turns|
  {
    if t == 0 then 0 else Receives(turns, t - 1) + (if turns[t - 1].Receive? then 1 else 0)
  }

  /** One text frame: the message received and what is buffered behind it. */
  method Batch(queued: seq<string>, first: nat, buffered: nat, fault: Fault)
    returns (payload: string, taken: nat, ok: bool)
    requires first < |queued|
    ensures first < taken <= |queued| && taken <= first + 1 + QUEUE_CAPACITY
    ensures ok ==> payload == Join(queued[first..taken], NEWLINE)
    ensures ok ==> taken == first + 1 + Behind(|queued| - first - 1, buffered)
    ensures ok <==> fault == NoFault || (fault.WriteFails? && 2 * Behind(|queued| - first - 1, buffered) < fault.k)
  {
    payload, taken, ok := queued[first], first + 1, fault != OpenFails && fault != WriteFails(0);
    assert queued[first..taken] == [payload];
    if !ok {
      return;
    }
    for i := 0 to Behind(|queued| - taken, buffered)
      invariant taken == first + 1 + i && ok
      invariant fault.WriteFails? ==> 2 * i < fault.k
      invariant payload == Join(queued[first..taken], NEWLINE)
    {
      if fault == WriteFails(2 * i + 1) {
        ok := false;
        break;
      }
      JoinOneMore(queued, first, taken);
      var message := queued[taken];
      taken := taken + 1;
      if fault == WriteFails(2 * i + 2) {
        ok := false;
        break;
      }
      payload := payload + [NEWLINE] + message;
    }
    ok := ok && fault != CloseFails;
  }

  /** One turn: what has gone out after it. A frame is added unless a write fails. */
  method Turned(queued: seq<string>, frames: seq<Frame>, sent: nat, turn: Turn)
    returns (now: seq<Frame>, taken: nat, outcome: Outcome)
    requires CarriesFirst(frames, queued, sent)
    ensures sent <= taken <= |queued| && taken <= sent + 1 + QUEUE_CAPACITY
    ensures CarriesFirst(now, queued, if outcome.Broken? then sent else taken)
    ensures if outcome.Broken? then now == frames else |now| == |frames| + 1 && now[..|frames|] == frames
    ensures !outcome.Broken? ==> (now[|frames|] == Ping <==> turn.Tick?)
    ensures outcome.Closed? ==> taken == |queued| && now[|frames|] == Close
    ensures outcome.Running? ==> now[|frames|] != Close && !Fails(turn) && (turn.Receive? ==> sent < taken)
    ensures Works(turn) ==> !outcome.Broken?
  {
    var frame;
    now, frame, taken, outcome := frames, Ping, sent, Running;
    if turn.Tick? {
      outcome := if turn.ok then Running else Broken;
    } else if sent == |queued| {
      frame, outcome := Close, if turn.fault == NoFault then Closed else Broken;
    } else {
      var payload, ok;
      payload, taken, ok := Batch(queued, sent, turn.buffered, turn.fault);
      frame, outcome := TextFrame(payload), if ok then Running else Broken;
    }
    if outcome != Broken {
      CarriesOneMore(frames, queued, sent, taken, frame);
      now := frames + [frame];
    }
  }

  /** `queued` is everything ever put on the channel, which is closed after it; the pump
      runs until it sees the close, a write fails, or the turns given run out. Of what it
      took from the channel the first `sent` messages went out. */
  method Pump(queued: seq<string>, turns: seq<Turn>)
    returns (frames: seq<Frame>, taken: nat, sent: nat, outcome: Outcome)
    ensures sent <= taken <= |queued| && taken <= sent + 1 + QUEUE_CAPACITY
    ensures CarriesFirst(frames, queued, sent)
    ensures !outcome.Broken? ==> sent == taken
    ensures outcome.Closed? ==>
              taken == |queued| && frames != [] && frames[|frames| - 1] == Close && NoClose(frames[..|frames| - 1])
    ensures !outcome.Closed? ==> NoClose(frames)
    ensures AllWork(turns) ==> !outcome.Broken?
    ensures outcome.Running? ==> forall t :: 0 <= t < |turns| ==> !Fails(turns[t])
    ensures |queued| < Receives(turns, |turns|) ==> !outcome.Running?
    ensures |frames| <= |turns| && (outcome.Running? ==> |frames| == |turns|)
    ensures forall t :: 0 <= t < |frames| ==> (frames[t] == Ping <==> turns[t].Tick?)
  {
    frames, taken, sent, outcome := [], 0, 0, Running;
    var t := 0;
    while t < |turns| && outcome == Running
      invariant t <= |turns| && sent <= taken <= |queued| && taken <= sent + 1 + QUEUE_CAPACITY
      invariant outcome == Running ==> Receives(turns, t) <= taken
      invariant outcome != Broken ==> sent == taken
      invariant outcome == Closed ==> taken == |queued| && frames != [] && frames[|frames| - 1] == Close
      invariant if outcome == Closed then NoClose(frames[..|frames| - 1]) else NoClose(frames)
      invariant CarriesFirst(frames, queued, sent)
      invariant outcome == Running ==> forall i :: 0 <= i < t ==> !Fails(turns[i])
      invariant outcome == Broken ==> !AllWork(turns)
      invariant |frames| == if outcome == Broken then t - 1 else t
      invariant forall i :: 0 <= i < |frames| ==> (frames[i] == Ping <==> turns[i].Tick?)
    {
      frames, taken, outcome := Turned(queued, frames, sent, turns[t]);
      sent := if outcome == Broken then sent else taken;
      t := t + 1;
    }
  }

  lemma {:induction false} DecodeCarried(frames: seq<Frame>, messages: seq<string>)
    requires Carries(frames, messages)
    ensures |Decode(frames)| == |messages| + Within(messages, NEWLINE)
    ensures AllFree(messages, NEWLINE) ==> Decode(frames) == messages
    decreases |frames|
  {
    if frames != [] {
      var front, last := frames[..|frames| - 1], frames[|frames| - 1];
      if last.TextFrame? {
        var n :| EndsInBatch(front, last.payload, messages, n);
        DecodeCarried(front, messages[..n]);
        assert messages[..n] + messages[n..] == messages;
        WithinConcat(messages[..n], messages[n..], NEWLINE);
        JoinOccurrences(messages[n..], NEWLINE);
        if AllFree(messages, NEWLINE) {
          assert AllFree(messages[..n], NEWLINE) && AllFree(messages[n..], NEWLINE);
          SplitJoin(messages[n..], NEWLINE);
        }
      } else {
        DecodeCarried(front, messages);
      }
    }
  }

  /** However the messages were batched, splitting the frames on newlines gives
      them back in order exactly when none of them contains a newline. */
  lemma FramesDecode(frames: seq<Frame>, messages: seq<string>)
    requires Carries(frames, messages)
    ensures Decode(frames) == messages <==> AllFree(messages, '\n')
  {
    DecodeCarried(frames, messages);
    WithinNone(messages, NEWLINE);
  }
}
