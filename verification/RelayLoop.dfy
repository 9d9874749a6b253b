/** The relay's receive loop, pushing into a running hub. */
module RelayLoop {
  import Hub
  import HubLoop
  import opened Network

  /** The hub events of a whole series of publications. */
  function RelayedAll(enc: Encoder, pubs: seq<Publication>): seq<Hub.Event> {
    if pubs == [] then []
    else RelayedAll(enc, pubs[..|pubs| - 1]) + Relayed(enc, pubs[|pubs| - 1])
  }

  /** One publication makes at most one hub event. */
  function Pushed(h: Hub.State, events: seq<Hub.Event>): Hub.State {
    if events == [] then h else Hub.Step(h, events[0])
  }

  method RelayOne(hub: HubLoop.Loop, enc: Encoder, pub: Publication)
    modifies hub
    ensures hub.View() == Pushed(old(hub.View()), Relayed(enc, pub))
  {
    var events := Relayed(enc, pub);
    if events != [] {
      hub.Handle(events[0]);
    }
  }

  /** Publications are handled one after the other, in order. */
  method Relay(hub: HubLoop.Loop, enc: Encoder, pubs: seq<Publication>)
    modifies hub
    ensures hub.View() == Hub.Run(old(hub.View()), RelayedAll(enc, pubs))
  {
    ghost var start := hub.View();
    var i := 0;
    assert RelayedAll(enc, pubs[..0]) == [];
    while i < |pubs|
      invariant 0 <= i <= |pubs|
      invariant hub.View() == Hub.Run(start, RelayedAll(enc, pubs[..i]))
    {
      RelayOne(hub, enc, pubs[i]);
      OneMore(enc, pubs, i, start);
      i := i + 1;
    }
    assert pubs[..i] == pubs;
  }

  lemma OneMore(enc: Encoder, pubs: seq<Publication>, i: nat, start: Hub.State)
    requires i < |pubs|
    ensures Hub.Run(start, RelayedAll(enc, pubs[..i + 1]))
         == Pushed(Hub.Run(start, RelayedAll(enc, pubs[..i])), Relayed(enc, pubs[i]))
  {
    assert pubs[..i + 1][..i] == pubs[..i];
    var events := Relayed(enc, pubs[i]);
    var front := RelayedAll(enc, pubs[..i]);
    assert RelayedAll(enc, pubs[..i + 1]) == front + events;
    if events == [] {
      assert front + events == front;
    } else {
      assert events == [events[0]];
      Hub.RunSnoc(start, front, events[0]);
    }
  }
}
