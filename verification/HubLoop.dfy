/** The hub as the program has it: an object whose methods update its maps in
    place, and the event loop around them. */
module HubLoop {
  import opened Hub

  /** Puts a client under each of its keys, making the missing sets. */
  method File(index: Index, client: Client, keys: seq<string>) returns (r: Index)
    ensures r == Filed(index, client, keys)
  {
    r := index;
    NothingFiled(index, client);
    var i := 0;
    while i < |keys|
      invariant 0 <= i <= |keys|
      invariant r == Filed(index, client, keys[..i])
    {
      FiledStep(index, client, keys[..i], keys[i]);
      assert keys[..i + 1] == keys[..i] + [keys[i]];
      ghost var before := r;
      if keys[i] !in r {
        r := r[keys[i] := {}];
      }
      r := r[keys[i] := r[keys[i]] + {client}];
      assert r == FileOne(before, client, keys[i]);
      i := i + 1;
    }
    assert keys[..i] == keys;
  }

  /** Takes a client out from under each of its keys, dropping the sets left empty. */
  method Unfile(index: Index, client: Client, keys: seq<string>) returns (r: Index)
    ensures r == Unfiled(index, client, keys)
  {
    r := index;
    NothingFiled(index, client);
    var i := 0;
    while i < |keys|
      invariant 0 <= i <= |keys|
      invariant r == Unfiled(index, client, keys[..i])
    {
      UnfiledStep(index, client, keys[..i], keys[i]);
      assert keys[..i + 1] == keys[..i] + [keys[i]];
      ghost var before := r;
      if keys[i] in r {
        r := r[keys[i] := r[keys[i]] - {client}];
        if r[keys[i]] == {} {
          r := r - {keys[i]};
        }
      }
      assert r == UnfileOne(before, client, keys[i]);
      i := i + 1;
    }
    assert keys[..i] == keys;
  }

  /** The loop of sendToRoom. Iteration order is arbitrary; a closed target panics. */
  method Offer(chans: map<Client, Channel>, pending: Count, targets: set<Client>, item: Item)
    returns (panicked: bool, after: map<Client, Channel>, slow: Count)
    ensures panicked <==> AnyClosed(chans, targets)
    ensures !panicked ==> after == PushAll(chans, targets, item)
    ensures !panicked ==> slow == OneMoreEach(pending, FullAmong(chans, targets))
  {
    panicked, after, slow := false, chans, pending;
    ghost var served: set<Client> := {};
    var left := targets;
    NoneYet(chans, item);
    NoneSlow(chans, pending);
    while left != {}
      invariant left !! served && left + served == targets
      invariant !AnyClosed(chans, served)
      invariant after == PushAll(chans, served, item)
      invariant slow == OneMoreEach(pending, FullAmong(chans, served))
      decreases left
    {
      var client :| client in left;
      left := left - {client};
      var channel := ChannelIn(after, client);
      assert channel == ChannelIn(chans, client);
      if channel.closed {
        panicked := true;
        return;
      }
      PushAllStep(chans, served, client, item);
      FullAmongStep(chans, served, client);
      OneMoreEachStep(pending, FullAmong(chans, served), client);
      served := served + {client};
      if Full(channel) {
        slow := OneMore(slow, client);
        after := after[client := channel];
      } else {
        after := after[client := channel.(sent := channel.sent + [item])];
      }
    }
    assert served == targets;
  }

  /** The loop of SendToUser: a full channel is closed and its client dropped. */
  method OfferOrClose(chans: map<Client, Channel>, targets: set<Client>, item: Item)
    returns (panicked: bool, after: map<Client, Channel>, kept: set<Client>)
    ensures panicked <==> AnyClosed(chans, targets)
    ensures !panicked ==> after == PushOrClose(chans, targets, item)
    ensures !panicked ==> kept == targets - FullAmong(chans, targets)
  {
    panicked, after, kept := false, chans, targets;
    ghost var served: set<Client> := {};
    var left := targets;
    NoneYet(chans, item);
    while left != {}
      invariant left !! served && left + served == targets
      invariant !AnyClosed(chans, served)
      invariant after == PushOrClose(chans, served, item)
      invariant kept == targets - FullAmong(chans, served)
      decreases left
    {
      var client :| client in left;
      left := left - {client};
      var channel := ChannelIn(after, client);
      assert channel == ChannelIn(chans, client);
      if channel.closed {
        panicked := true;
        return;
      }
      PushOrCloseStep(chans, served, client, item);
      FullAmongStep(chans, served, client);
      served := served + {client};
      if Full(channel) {
        after := after[client := Shut(channel)];
        kept := kept - {client};
      } else {
        after := after[client := channel.(sent := channel.sent + [item])];
      }
    }
    assert served == targets;
  }

  /** The loop of shutdown. */
  method CloseEach(chans: map<Client, Channel>, targets: set<Client>)
    returns (panicked: bool, after: map<Client, Channel>)
    ensures panicked <==> AnyClosed(chans, targets)
    ensures !panicked ==> after == CloseAll(chans, targets)
  {
    panicked, after := false, chans;
    ghost var served: set<Client> := {};
    var left := targets;
    NoneYet(chans, Direct(""));
    while left != {}
      invariant left !! served && left + served == targets
      invariant !AnyClosed(chans, served)
      invariant after == CloseAll(chans, served)
      decreases left
    {
      var client :| client in left;
      left := left - {client};
      var channel := ChannelIn(after, client);
      assert channel == ChannelIn(chans, client);
      if channel.closed {
        panicked := true;
        return;
      }
      CloseAllStep(chans, served, client);
      served := served + {client};
      after := after[client := Shut(channel)];
    }
    assert served == targets;
  }

  class Loop {
    var clients: set<Client>
    var rooms: Index
    var users: Index
    var chans: map<Client, Channel>
    var pending: Count
    var stopped: bool
    var panicked: bool
    var log: seq<Broadcast>
    ghost var since: map<Client, nat>
    ghost var gone: Count

    ghost function View(): State
      reads this
    {
      State(clients, rooms, users, chans, pending, stopped, panicked, log, since, gone)
    }

    constructor ()
      ensures View() == NEW
    {
      clients, rooms, users, chans := {}, map[], map[], map[];
      pending, stopped, panicked := map[], false, false;
      log, since, gone := [], map[], map[];
    }

    method AddClient(client: Client)
      modifies this
      ensures View() == Hub.AddClient(old(View()), client)
    {
      clients := clients + {client};
      users := File(users, client, [client.user]);
      rooms := File(rooms, client, client.rooms);
      chans := chans[client := ChannelIn(chans, client)];
      since := since[client := |log|];
    }

    method CloseSend(client: Client)
      modifies this
      ensures View() == Hub.CloseSend(old(View()), client)
    {
      var channel := ChannelIn(chans, client);
      if channel.closed {
        panicked := true;
      }
      chans := chans[client := Shut(channel)];
      gone := OneMore(gone, client);
    }

    method RemoveClient(client: Client)
      modifies this
      ensures View() == Hub.RemoveClient(old(View()), client)
    {
      clients := clients - {client};
      users := Unfile(users, client, [client.user]);
      rooms := Unfile(rooms, client, client.rooms);
      CloseSend(client);
    }

    method SendToRoom(msg: Broadcast)
      requires !panicked
      modifies this
      ensures View() == Hub.SendToRoom(old(View()), msg)
    {
      var dead, after, slow := Offer(chans, pending, TargetsIn(rooms, msg), FromRoom(|log|, msg.data));
      if dead {
        panicked := true;
        return;
      }
      chans := after;
      pending := slow;
      log := log + [msg];
    }

    method SendToUser(user: string, data: string)
      requires !panicked
      modifies this
      ensures View() == ToUser(old(View()), user, data)
    {
      if user in users {
        var dead, after, kept := OfferOrClose(chans, users[user], Direct(data));
        if dead {
          panicked := true;
          return;
        }
        chans := after;
        users := users[user := kept];
      }
    }

    method Shutdown()
      requires !panicked
      modifies this
      ensures View() == Hub.Shutdown(old(View()))
    {
      var dead, after := CloseEach(chans, clients);
      if dead {
        panicked := true;
        return;
      }
      chans := after;
      clients := {};
      rooms := map[];
      stopped := true;
    }

    method Take(client: Client, count: nat)
      modifies this
      ensures View() == TakeItems(old(View()), client, count)
    {
      if client in chans {
        chans := chans[client := Taken(chans[client], count)];
      }
    }

    method Evicted(client: Client)
      modifies this
      ensures View() == Handed(old(View()), client)
    {
      pending := OneLess(pending, client);
    }

    /** One turn of the event loop, or one call from outside it. */
    method Handle(e: Event)
      modifies this
      ensures View() == Step(old(View()), e)
    {
      if panicked {
        return;
      }
      match e {
        case SendToUser(user, data) => SendToUser(user, data);
        case Take(c, count) => Take(c, count);
        case Register(c) =>
          if !stopped {
            AddClient(c);
          }
        case Unregister(c, evicted) =>
          if !stopped {
            if evicted {
              Evicted(c);
            }
            RemoveClient(c);
          }
        case Send(msg) =>
          if !stopped {
            SendToRoom(msg);
          }
        case Stop =>
          if !stopped {
            Shutdown();
          }
      }
    }

    /** The event loop, fed with the events in the order they arrive. */
    method Run(events: seq<Event>)
      modifies this
      ensures View() == Hub.Run(old(View()), events)
    {
      ghost var start := View();
      var i := 0;
      assert Hub.Run(start, events[..0]) == start;
      while i < |events|
        invariant 0 <= i <= |events|
        invariant View() == Hub.Run(start, events[..i])
      {
        ghost var now := View();
        Handle(events[i]);
        AddEvent(start, events, i, now);
        i := i + 1;
      }
      assert events[..i] == events;
    }
  }

  lemma AddEvent(start: State, events: seq<Event>, i: nat, now: State)
    requires i < |events| && now == Hub.Run(start, events[..i])
    ensures Step(now, events[i]) == Hub.Run(start, events[..i + 1])
  {
    RunSnoc(start, events[..i], events[i]);
    assert events[..i + 1] == events[..i] + [events[i]];
  }
}
