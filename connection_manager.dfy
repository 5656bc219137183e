/**
 * The WebSocket subscription registry of the Metis API
 * (`ConnectionManager` in metis/api/app.py): which clients are connected,
 * which event types each of them wants, and the broadcast of an event to
 * the interested clients.
 *
 * Sending on a socket is I/O; a broadcast is given instead the set of
 * clients whose send raises. The JSON text of a message is abstracted to
 * the pair it encodes.
 */
module Api {
  type ClientId = string

  type EventType = string

  /** An accepted WebSocket connection, known only by its identity. */
  datatype WebSocket = WebSocket(handle: nat)

  /** The message a broadcast sends: `{"type": eventType, "data": data}`. */
  datatype Message<D> = Message(eventType: EventType, data: D)

  /** How a broadcast ends: it visited every client, or a send failed, the
      client was disconnected, and the loop then raised (the dictionary it
      iterates changed size). */
  datatype BroadcastOutcome = Completed | Aborted(failedClient: ClientId)

  /** The clients sent to, in order, and how the broadcast ended. */
  datatype BroadcastResult = BroadcastResult(delivered: seq<ClientId>, outcome: BroadcastOutcome)

  type Subscriptions = map<ClientId, set<EventType>>

  type Connections = map<ClientId, WebSocket>

  predicate Distinct(s: seq<ClientId>) {
    forall i, j :: 0 <= i < j < |s| ==> s[i] != s[j]
  }

  /** The elements a list holds, as a set. */
  function Elements<T>(xs: seq<T>): set<T> {
    set x | x in xs
  }

  // ---------------------------------------------------------------------
  // Insertion order of the subscriptions dictionary

  /** The insertion order after `pop(c)`. */
  function Without(order: seq<ClientId>, c: ClientId): (r: seq<ClientId>)
    ensures forall d :: d in r <==> d in order && d != c
    ensures |r| <= |order|
  {
    if order == [] then []
    else if order[0] == c then Without(order[1..], c)
    else [order[0]] + Without(order[1..], c)
  }

  /** Removing a client that is not there changes nothing. */
  lemma {:induction false} WithoutAbsent(order: seq<ClientId>, c: ClientId)
    requires c !in order
    ensures Without(order, c) == order
  {
    if order != [] {
      WithoutAbsent(order[1..], c);
    }
  }

  /** Removal keeps the order free of duplicates, and removing twice is
      removing once. */
  lemma {:induction false} WithoutDistinct(order: seq<ClientId>, c: ClientId)
    requires Distinct(order)
    ensures Distinct(Without(order, c))
    ensures Without(Without(order, c), c) == Without(order, c)
  {
    if order != [] {
      WithoutDistinct(order[1..], c);
      if order[0] != c {
        assert order[0] !in Without(order[1..], c);
      }
    }
    WithoutAbsent(Without(order, c), c);
  }

  /** `pop` keeps the other clients in their order: removal distributes
      over concatenation, and (`WithoutSingle`) keeps or drops each single
      client. Over every split `xs + ys` of the order, the two pin `Without`
      down to the order-keeping filter. */
  lemma {:induction false} WithoutKeepsOrder(xs: seq<ClientId>, ys: seq<ClientId>, c: ClientId)
    ensures Without(xs + ys, c) == Without(xs, c) + Without(ys, c)
    decreases |xs|
  {
    if xs != [] {
      var x := xs[0];
      WithoutKeepsOrder(xs[1..], ys, c);
      assert (xs + ys)[0] == x;
      assert (xs + ys)[1..] == xs[1..] + ys;
      var rest := Without(xs[1..] + ys, c);
      assert Without(xs + ys, c) == if x == c then rest else [x] + rest;
    } else {
      assert xs + ys == ys;
    }
  }

  lemma WithoutSingle(d: ClientId, c: ClientId)
    ensures Without([d], c) == if d == c then [] else [d]
  {
    assert [d][1..] == [];
  }

  // ---------------------------------------------------------------------
  // subscribe and unsubscribe, on the subscriptions dictionary

  /** `subscribe`: a known client's set gains the given types; an unknown
      client is left unknown. */
  function Subscribed(subs: Subscriptions, c: ClientId, ts: seq<EventType>): Subscriptions {
    if c in subs then subs[c := subs[c] + Elements(ts)] else subs
  }

  /** `unsubscribe`: a known client's set loses the given types, those it
      does not hold being ignored; an unknown client is left unknown. */
  function Unsubscribed(subs: Subscriptions, c: ClientId, ts: seq<EventType>): Subscriptions {
    if c in subs then subs[c := subs[c] - Elements(ts)] else subs
  }

  /** Subscribing touches only the one client's set, and never creates an
      entry. */
  lemma SubscribedFrame(subs: Subscriptions, c: ClientId, ts: seq<EventType>)
    ensures Subscribed(subs, c, ts).Keys == subs.Keys
    ensures forall d :: d in subs && d != c ==> Subscribed(subs, c, ts)[d] == subs[d]
    ensures c in subs ==> Subscribed(subs, c, ts)[c] == subs[c] + Elements(ts)
    ensures c in subs ==> forall t :: t in ts ==> t in Subscribed(subs, c, ts)[c]
  {
  }

  /** Subscribing twice to the same types is subscribing once. */
  lemma SubscribedIdempotent(subs: Subscriptions, c: ClientId, ts: seq<EventType>)
    ensures Subscribed(Subscribed(subs, c, ts), c, ts) == Subscribed(subs, c, ts)
  {
  }

  /** Unsubscribing touches only the one client's set, and never creates an
      entry. */
  lemma UnsubscribedFrame(subs: Subscriptions, c: ClientId, ts: seq<EventType>)
    ensures Unsubscribed(subs, c, ts).Keys == subs.Keys
    ensures forall d :: d in subs && d != c ==> Unsubscribed(subs, c, ts)[d] == subs[d]
    ensures c in subs ==> Unsubscribed(subs, c, ts)[c] == subs[c] - Elements(ts)
    ensures c in subs ==> forall t :: t in ts ==> t !in Unsubscribed(subs, c, ts)[c]
  {
  }

  /** Unsubscribing from types just subscribed to leaves the client as if
      only the unsubscription had happened. */
  lemma UnsubscribeUndoesSubscribe(subs: Subscriptions, c: ClientId, ts: seq<EventType>)
    ensures Unsubscribed(Subscribed(subs, c, ts), c, ts) == Unsubscribed(subs, c, ts)
  {
    if c in subs {
      assert (subs[c] + Elements(ts)) - Elements(ts) == subs[c] - Elements(ts);
    }
  }

  // ---------------------------------------------------------------------
  // broadcast, on a fixed state of the registry

  /** A client that a broadcast of `e` tries to send to: it holds `e` in its
      set and has a connection. */
  predicate Interested(c: ClientId, subs: Subscriptions, active: Connections, e: EventType) {
    c in subs && e in subs[c] && c in active
  }

  /** The interested clients among `clients`, in their order. */
  function Eligible(clients: seq<ClientId>, subs: Subscriptions, active: Connections, e: EventType): seq<ClientId> {
    if clients == [] then []
    else if Interested(clients[0], subs, active, e) then [clients[0]] + Eligible(clients[1..], subs, active, e)
    else Eligible(clients[1..], subs, active, e)
  }

  lemma {:induction false} EligibleMembers(clients: seq<ClientId>, subs: Subscriptions, active: Connections, e: EventType)
    ensures forall d :: d in Eligible(clients, subs, active, e) <==> d in clients && Interested(d, subs, active, e)
    ensures Distinct(clients) ==> Distinct(Eligible(clients, subs, active, e))
  {
    if clients != [] {
      EligibleMembers(clients[1..], subs, active, e);
    }
  }

  /** The loop of `broadcast` over the clients in dictionary order: each
      interested client is sent the message; the first whose send fails
      ends the loop. */
  function BroadcastRun(clients: seq<ClientId>, subs: Subscriptions, active: Connections,
                        e: EventType, failing: set<ClientId>): BroadcastResult
  {
    if clients == [] then BroadcastResult([], Completed)
    else
      var c := clients[0];
      if Interested(c, subs, active, e) then
        if c in failing then BroadcastResult([], Aborted(c))
        else
          var rest := BroadcastRun(clients[1..], subs, active, e, failing);
          BroadcastResult([c] + rest.delivered, rest.outcome)
      else BroadcastRun(clients[1..], subs, active, e, failing)
  }

  /** A broadcast sends, in dictionary order, to the interested clients up
      to the first whose send fails, and to no one after it; it completes
      exactly when no interested client fails. */
  lemma {:induction false} BroadcastRunIsPrefix(clients: seq<ClientId>, subs: Subscriptions, active: Connections,
                                                e: EventType, failing: set<ClientId>)
    ensures var r := BroadcastRun(clients, subs, active, e, failing);
            var eligible := Eligible(clients, subs, active, e);
            && |r.delivered| <= |eligible|
            && r.delivered == eligible[..|r.delivered|]
            && (forall d :: d in r.delivered ==> d !in failing)
            && (r.outcome.Completed? <==> r.delivered == eligible)
            && (r.outcome.Aborted? ==>
                  |r.delivered| < |eligible| && eligible[|r.delivered|] == r.outcome.failedClient
                  && r.outcome.failedClient in failing)
  {
    if clients != [] {
      BroadcastRunIsPrefix(clients[1..], subs, active, e, failing);
    }
  }

  /** Only interested clients are sent to, each at most once, and after a
      failure none of the interested clients further on is sent to. */
  lemma BroadcastRunDelivery(clients: seq<ClientId>, subs: Subscriptions, active: Connections,
                             e: EventType, failing: set<ClientId>)
    requires Distinct(clients)
    ensures var r := BroadcastRun(clients, subs, active, e, failing);
            && (forall d :: d in r.delivered ==> d in clients && Interested(d, subs, active, e))
            && Distinct(r.delivered)
            && (r.outcome.Aborted? ==>
                  var eligible := Eligible(clients, subs, active, e);
                  forall j :: |r.delivered| <= j < |eligible| ==> eligible[j] !in r.delivered)
  {
    var r := BroadcastRun(clients, subs, active, e, failing);
    var eligible := Eligible(clients, subs, active, e);
    BroadcastRunIsPrefix(clients, subs, active, e, failing);
    EligibleMembers(clients, subs, active, e);
    assert forall d :: d in r.delivered ==> d in eligible;
  }

  /** Under the loop as written, one failing client deprives every
      interested client after it: with "a" before "b", both subscribed and
      connected and only "a" failing, "b" is sent nothing. */
  lemma AbortSkipsLaterClients(ws: WebSocket, e: EventType)
    ensures var subs := map["a" := {e}, "b" := {e}];
            var active := map["a" := ws, "b" := ws];
            && Interested("b", subs, active, e) && "b" != "a"
            && BroadcastRun(["a", "b"], subs, active, e, {"a"}) == BroadcastResult([], Aborted("a"))
  {
  }

  // ---------------------------------------------------------------------
  // broadcast as evidently intended: the loop sends to every interested
  // client, sets aside those whose send fails, and disconnects them only
  // after it has finished, so the dictionary does not change under it

  /** The clients sent to, and the clients dropped after a failed send. */
  datatype BestEffortResult = BestEffortResult(delivered: seq<ClientId>, dropped: seq<ClientId>)

  function BestEffortRun(clients: seq<ClientId>, subs: Subscriptions, active: Connections,
                         e: EventType, failing: set<ClientId>): BestEffortResult
  {
    if clients == [] then BestEffortResult([], [])
    else
      var c := clients[0];
      var rest := BestEffortRun(clients[1..], subs, active, e, failing);
      if !Interested(c, subs, active, e) then rest
      else if c in failing then BestEffortResult(rest.delivered, [c] + rest.dropped)
      else BestEffortResult([c] + rest.delivered, rest.dropped)
  }

  /** Every interested client is either sent to or dropped, according to
      whether its send fails, and no one else is touched. */
  lemma {:induction false} BestEffortRunSplits(clients: seq<ClientId>, subs: Subscriptions, active: Connections,
                                               e: EventType, failing: set<ClientId>)
    ensures var r := BestEffortRun(clients, subs, active, e, failing);
            && (forall d :: d in r.delivered <==> d in clients && Interested(d, subs, active, e) && d !in failing)
            && (forall d :: d in r.dropped <==> d in clients && Interested(d, subs, active, e) && d in failing)
            && |r.delivered| + |r.dropped| == |Eligible(clients, subs, active, e)|
  {
    if clients != [] {
      BestEffortRunSplits(clients[1..], subs, active, e, failing);
    }
  }

  /** When no send fails, the loop as written and the intended loop send to
      the same clients. */
  lemma {:induction false} BestEffortAgreesWhenComplete(clients: seq<ClientId>, subs: Subscriptions, active: Connections,
                                                        e: EventType, failing: set<ClientId>)
    requires BroadcastRun(clients, subs, active, e, failing).outcome.Completed?
    ensures BestEffortRun(clients, subs, active, e, failing).delivered == BroadcastRun(clients, subs, active, e, failing).delivered
    ensures BestEffortRun(clients, subs, active, e, failing).dropped == []
  {
    if clients != [] {
      BestEffortAgreesWhenComplete(clients[1..], subs, active, e, failing);
    }
  }

  /** Running the intended loop over one more client extends the results
      by what happens to that client. */
  lemma {:induction false} BestEffortSnoc(clients: seq<ClientId>, c: ClientId, subs: Subscriptions, active: Connections,
                                          e: EventType, failing: set<ClientId>)
    ensures var r := BestEffortRun(clients, subs, active, e, failing);
            BestEffortRun(clients + [c], subs, active, e, failing)
            == if !Interested(c, subs, active, e) then r
               else if c in failing then BestEffortResult(r.delivered, r.dropped + [c])
               else BestEffortResult(r.delivered + [c], r.dropped)
  {
    if clients == [] {
      assert [c][1..] == [];
    } else {
      assert (clients + [c])[1..] == clients[1..] + [c];
      BestEffortSnoc(clients[1..], c, subs, active, e, failing);
    }
  }

  /** `pop` on a dictionary some keys were already popped from. */
  lemma RemoveOneMore<V>(m: map<ClientId, V>, gone: set<ClientId>, c: ClientId)
    ensures (m - gone) - {c} == m - (gone + {c})
  {
    assert ((m - gone) - {c}).Keys == (m - (gone + {c})).Keys;
  }

  /** The insertion order with every client of `gone` removed. */
  function Except(order: seq<ClientId>, gone: set<ClientId>): (r: seq<ClientId>)
    ensures forall d :: d in r <==> d in order && d !in gone
  {
    if order == [] then []
    else if order[0] in gone then Except(order[1..], gone)
    else [order[0]] + Except(order[1..], gone)
  }

  lemma {:induction false} ExceptNothing(order: seq<ClientId>)
    ensures Except(order, {}) == order
  {
    if order != [] {
      ExceptNothing(order[1..]);
    }
  }

  /** Removing several clients keeps the others in their order, as
      `WithoutKeepsOrder` states for one: removal distributes over
      concatenation (`ExceptKeepsOrder`) and keeps or drops each single
      client (`ExceptSingle`); removing one client is `pop` (`ExceptOne`). */
  lemma {:induction false} ExceptKeepsOrder(xs: seq<ClientId>, ys: seq<ClientId>, gone: set<ClientId>)
    ensures Except(xs + ys, gone) == Except(xs, gone) + Except(ys, gone)
    decreases |xs|
  {
    if xs != [] {
      var x := xs[0];
      ExceptKeepsOrder(xs[1..], ys, gone);
      assert (xs + ys)[0] == x;
      assert (xs + ys)[1..] == xs[1..] + ys;
      var rest := Except(xs[1..] + ys, gone);
      assert Except(xs + ys, gone) == if x in gone then rest else [x] + rest;
    } else {
      assert xs + ys == ys;
    }
  }

  lemma ExceptSingle(d: ClientId, gone: set<ClientId>)
    ensures Except([d], gone) == if d in gone then [] else [d]
  {
    assert [d][1..] == [];
  }

  lemma {:induction false} ExceptOne(order: seq<ClientId>, c: ClientId)
    ensures Except(order, {c}) == Without(order, c)
  {
    if order != [] {
      ExceptOne(order[1..], c);
    }
  }

  /** Removing one more client from the order, one `pop` at a time. */
  lemma {:induction false} WithoutExcept(order: seq<ClientId>, gone: set<ClientId>, c: ClientId)
    ensures Without(Except(order, gone), c) == Except(order, gone + {c})
  {
    if order != [] {
      WithoutExcept(order[1..], gone, c);
    }
  }

  // ---------------------------------------------------------------------
  // The registry itself

  class ConnectionManager {
    /** client id -> its connection */
    var activeConnections: Connections
    /** client id -> the event types it is subscribed to */
    var subscriptions: Subscriptions
    /** The keys of `subscriptions` in the order the dictionary holds them:
        a key keeps its place when reassigned, and `pop` removes it. */
    var order: seq<ClientId>

    /** The two dictionaries always have the same clients, and `order`
        lists exactly those clients, each once. */
    ghost predicate Valid()
      reads this
    {
      && activeConnections.Keys == subscriptions.Keys
      && Distinct(order)
      && Elements(order) == subscriptions.Keys
    }

    /** `__init__`: no clients. */
    constructor ()
      ensures Valid()
      ensures activeConnections == map[] && subscriptions == map[] && order == []
    {
      activeConnections := map[];
      subscriptions := map[];
      order := [];
    }

    /** `connect`: the client gets the connection and an empty set, losing
        any earlier subscriptions; every other client is left as it was. */
    method Connect(websocket: WebSocket, clientId: ClientId)
      requires Valid()
      modifies this
      ensures Valid()
      ensures activeConnections == old(activeConnections)[clientId := websocket]
      ensures subscriptions == old(subscriptions)[clientId := {}]
      ensures order == if clientId in old(subscriptions) then old(order) else old(order) + [clientId]
    {
      activeConnections := activeConnections[clientId := websocket];
      if clientId !in subscriptions {
        order := order + [clientId];
      }
      subscriptions := subscriptions[clientId := {}];
    }

    /** `disconnect`: the client leaves both dictionaries; for an unknown
        client nothing changes, so a second call is a no-op. */
    method Disconnect(clientId: ClientId)
      requires Valid()
      modifies this
      ensures Valid()
      ensures activeConnections == old(activeConnections) - {clientId}
      ensures subscriptions == old(subscriptions) - {clientId}
      ensures order == Without(old(order), clientId)
      ensures clientId !in old(subscriptions) ==>
        activeConnections == old(activeConnections) && subscriptions == old(subscriptions) && order == old(order)
    {
      WithoutDistinct(order, clientId);
      if clientId !in order {
        WithoutAbsent(order, clientId);
        assert activeConnections - {clientId} == activeConnections;
        assert subscriptions - {clientId} == subscriptions;
      }
      assert Elements(Without(order, clientId)) == (subscriptions - {clientId}).Keys;
      activeConnections := activeConnections - {clientId};
      subscriptions := subscriptions - {clientId};
      order := Without(order, clientId);
    }

    /** `subscribe`: see `Subscribed`; the connections are not touched. */
    method Subscribe(clientId: ClientId, eventTypes: seq<EventType>)
      requires Valid()
      modifies this
      ensures Valid()
      ensures subscriptions == Subscribed(old(subscriptions), clientId, eventTypes)
      ensures activeConnections == old(activeConnections) && order == old(order)
    {
      if clientId in subscriptions {
        subscriptions := subscriptions[clientId := subscriptions[clientId] + Elements(eventTypes)];
      }
    }

    /** `unsubscribe`: discards the types one by one; see `Unsubscribed`. */
    method Unsubscribe(clientId: ClientId, eventTypes: seq<EventType>)
      requires Valid()
      modifies this
      ensures Valid()
      ensures subscriptions == Unsubscribed(old(subscriptions), clientId, eventTypes)
      ensures activeConnections == old(activeConnections) && order == old(order)
    {
      if clientId in subscriptions {
        var i := 0;
        assert Elements(eventTypes[..0]) == {};
        assert subscriptions[clientId] - {} == subscriptions[clientId];
        assert subscriptions == subscriptions[clientId := subscriptions[clientId]];
        while i < |eventTypes|
          invariant 0 <= i <= |eventTypes|
          invariant activeConnections == old(activeConnections) && order == old(order)
          invariant subscriptions == old(subscriptions)[clientId := old(subscriptions)[clientId] - Elements(eventTypes[..i])]
        {
          assert Elements(eventTypes[..i + 1]) == Elements(eventTypes[..i]) + {eventTypes[i]} by {
            assert eventTypes[..i + 1] == eventTypes[..i] + [eventTypes[i]];
          }
          assert subscriptions[clientId] - {eventTypes[i]}
              == old(subscriptions)[clientId] - Elements(eventTypes[..i + 1]);
          subscriptions := subscriptions[clientId := subscriptions[clientId] - {eventTypes[i]}];
          i := i + 1;
        }
        assert eventTypes[..i] == eventTypes;
      }
    }

    /** `broadcast`: builds the message once and sends it to every
        interested client in dictionary order (see `BroadcastRun`). A client
        in `failing` raises on send: it is disconnected, and the broadcast
        ends there. Otherwise nothing changes. */
    method Broadcast<D>(eventType: EventType, data: D, failing: set<ClientId>)
      returns (message: Message<D>, delivered: seq<ClientId>, outcome: BroadcastOutcome)
      requires Valid()
      modifies this
      ensures Valid()
      ensures message == Message(eventType, data)
      ensures BroadcastResult(delivered, outcome)
           == BroadcastRun(old(order), old(subscriptions), old(activeConnections), eventType, failing)
      ensures outcome.Completed? ==>
        activeConnections == old(activeConnections) && subscriptions == old(subscriptions) && order == old(order)
      ensures outcome.Aborted? ==>
        && activeConnections == old(activeConnections) - {outcome.failedClient}
        && subscriptions == old(subscriptions) - {outcome.failedClient}
        && order == Without(old(order), outcome.failedClient)
    {
      message := Message(eventType, data);
      delivered := [];
      outcome := Completed;
      var clients := order;
      var i := 0;
      while i < |clients|
        invariant 0 <= i <= |clients|
        invariant activeConnections == old(activeConnections) && subscriptions == old(subscriptions) && order == old(order)
        invariant var rest := BroadcastRun(clients[i..], subscriptions, activeConnections, eventType, failing);
                  BroadcastRun(clients, subscriptions, activeConnections, eventType, failing)
                  == BroadcastResult(delivered + rest.delivered, rest.outcome)
      {
        var clientId := clients[i];
        assert clients[i..][1..] == clients[i + 1..];
        var interests := subscriptions[clientId];
        if eventType in interests && clientId in activeConnections {
          if clientId in failing {
            Disconnect(clientId);
            outcome := Aborted(clientId);
            assert delivered + [] == delivered;
            return;
          }
          delivered := delivered + [clientId];
        }
        i := i + 1;
      }
      assert delivered + [] == delivered;
    }

    /** `disconnect` of every client in `clients`, one after the other. */
    method DisconnectAll(clients: seq<ClientId>)
      requires Valid()
      modifies this
      ensures Valid()
      ensures activeConnections == old(activeConnections) - Elements(clients)
      ensures subscriptions == old(subscriptions) - Elements(clients)
      ensures order == Except(old(order), Elements(clients))
    {
      ghost var active0, subs0, order0 := activeConnections, subscriptions, order;
      ghost var gone: set<ClientId> := {};
      ExceptNothing(order);
      assert activeConnections - {} == activeConnections && subscriptions - {} == subscriptions;
      var k := 0;
      while k < |clients|
        invariant 0 <= k <= |clients|
        invariant Valid()
        invariant gone == Elements(clients[..k])
        invariant activeConnections == active0 - gone
        invariant subscriptions == subs0 - gone
        invariant order == Except(order0, gone)
      {
        assert Elements(clients[..k + 1]) == gone + {clients[k]} by {
          assert clients[..k + 1] == clients[..k] + [clients[k]];
        }
        WithoutExcept(order0, gone, clients[k]);
        RemoveOneMore(active0, gone, clients[k]);
        RemoveOneMore(subs0, gone, clients[k]);
        Disconnect(clients[k]);
        gone := gone + {clients[k]};
        k := k + 1;
      }
      assert clients[..k] == clients;
    }

    /** `broadcast` as evidently intended: every interested client is sent
        the message; those whose send fails are set aside during the loop
        and disconnected after it, so the dictionary being iterated does not
        change. */
    method BroadcastBestEffort<D>(eventType: EventType, data: D, failing: set<ClientId>)
      returns (message: Message<D>, delivered: seq<ClientId>, dropped: seq<ClientId>)
      requires Valid()
      modifies this
      ensures Valid()
      ensures message == Message(eventType, data)
      ensures BestEffortResult(delivered, dropped)
           == BestEffortRun(old(order), old(subscriptions), old(activeConnections), eventType, failing)
      ensures activeConnections == old(activeConnections) - Elements(dropped)
      ensures subscriptions == old(subscriptions) - Elements(dropped)
      ensures order == Except(old(order), Elements(dropped))
    {
      message := Message(eventType, data);
      delivered := [];
      dropped := [];
      var clients := order;
      var i := 0;
      while i < |clients|
        invariant 0 <= i <= |clients|
        invariant Valid() && clients == order
        invariant activeConnections == old(activeConnections) && subscriptions == old(subscriptions) && order == old(order)
        invariant BestEffortResult(delivered, dropped)
               == BestEffortRun(clients[..i], subscriptions, activeConnections, eventType, failing)
      {
        var clientId := clients[i];
        BestEffortSnoc(clients[..i], clientId, subscriptions, activeConnections, eventType, failing);
        assert clients[..i + 1] == clients[..i] + [clientId];
        var interests := subscriptions[clientId];
        if eventType in interests && clientId in activeConnections {
          if clientId in failing {
            dropped := dropped + [clientId];
          } else {
            delivered := delivered + [clientId];
          }
        }
        i := i + 1;
      }
      assert clients[..i] == clients;
      DisconnectAll(dropped);
    }
  }
}
