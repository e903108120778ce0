/**
 The Hub (internal/hub.go): the registry of live sessions keyed by user id,
 and its three event handlers, which run one at a time inside `Run`.

 The state the handlers touch is a `HubState`: the registry, the set of
 sessions whose outbound queue the Hub has closed, the store's existing user
 ids, the store's append-only message log, and the history of messages handed
 to session queues. The outcome of the store's insert and whether a queue can
 take a message right now are inputs of the route event: the first is the
 database's answer, the second is a scheduling fact (the queue is unbuffered,
 so a send succeeds only while the session's writer is waiting on it).

 Go panics when a closed channel is closed again or sent on; an unrecovered
 panic ends the process. A step that would panic yields `None`, and `Run`
 stops there, reporting the index of the event.

 The pure step functions are the specification; class `Hub` updates the same
 state in place and each of its methods is proved against them.
 */
module ChatHub {
  import opened ChatClient

  /** A message handed to a session's outbound queue. */
  datatype Delivery = Delivery(client: Client, msg: Message)

  datatype HubState = HubState(
    clients: map<UserId, Client>,
    closed: set<Client>,
    users: set<UserId>,
    log: seq<Message>,
    sent: seq<Delivery>)

  /** What the Hub's `select` received. */
  datatype Event =
    | Register(client: Client)
    | Unregister(client: Client)
      /** A message on the broadcast input; `insertOk` is the insert's outcome,
          `accepts` whether the recipient's queue can take it without blocking. */
    | Route(msg: Message, insertOk: bool, accepts: bool)

  /** How an unregister decides whether the session is the registered one. */
  datatype UnregisterPolicy =
    | ByKey    // as written: only `client.userId in clients` is tested
    | ByOwner  // the registered session under that key must be this session

  /** The end of a run: every event handled, or a panic at event `at` in state `hub`. */
  datatype Outcome = Done(hub: HubState) | Crashed(hub: HubState, at: nat)

  /** Every session sits under its own user id. */
  predicate KeyedByUser(s: HubState) {
    forall k :: k in s.clients ==> s.clients[k].userId == k
  }

  /** `c` is the session currently registered for its user. */
  predicate IsRegistered(s: HubState, c: Client) {
    c.userId in s.clients && s.clients[c.userId] == c
  }

  /** Keyed by user, and no registered session has a closed queue. */
  predicate Healthy(s: HubState) {
    && KeyedByUser(s)
    && forall k :: k in s.clients ==> s.clients[k] !in s.closed
  }

  /** The state `NewHub` starts from. */
  function NewHubState(users: set<UserId>): (s: HubState)
    ensures Healthy(s)
  {
    HubState(map[], {}, users, [], [])
  }

  // ---------------------------------------------------------------------------
  // The three handlers.

  /**
   HandleUserRegisterEvent: the session is registered under its user id,
   replacing any earlier session for that user without closing its queue;
   nothing else changes.
   */
  function RegisterStep(s: HubState, c: Client): (r: HubState)
    ensures IsRegistered(r, c)
    ensures forall k :: k != c.userId ==> (k in r.clients <==> k in s.clients)
    ensures forall k :: k != c.userId && k in s.clients ==> r.clients[k] == s.clients[k]
    ensures r.closed == s.closed && r.users == s.users && r.log == s.log && r.sent == s.sent
    ensures KeyedByUser(s) ==> KeyedByUser(r)
  {
    s.(clients := s.clients[c.userId := c])
  }

  /**
   HandleUserDisconnectEvent as written: when the user id is registered, the
   entry under it is deleted and the given session's queue is closed, whether
   or not the entry is that session; otherwise nothing happens. Closing a
   queue that is already closed panics.
   */
  function UnregisterStep(s: HubState, c: Client): (r: Option<HubState>)
    ensures r.None? <==> c.userId in s.clients && c in s.closed
    ensures c.userId !in s.clients ==> r == Some(s)
    ensures r.Some? && c.userId in s.clients ==>
      && r.value.clients == s.clients - {c.userId}
      && r.value.closed == s.closed + {c}
      && r.value.users == s.users && r.value.log == s.log && r.value.sent == s.sent
  {
    if c.userId in s.clients then
      if c in s.closed then None
      else Some(s.(clients := s.clients - {c.userId}, closed := s.closed + {c}))
    else Some(s)
  }

  /**
   The unregister evidently intended: only the session registered under the
   key is removed, and only its queue is closed.
   */
  function UnregisterOwnedStep(s: HubState, c: Client): (r: Option<HubState>)
    ensures r.None? <==> IsRegistered(s, c) && c in s.closed
    ensures !IsRegistered(s, c) ==> r == Some(s)
    ensures r.Some? && IsRegistered(s, c) ==>
      && r.value.clients == s.clients - {c.userId}
      && r.value.closed == s.closed + {c}
      && r.value.users == s.users && r.value.log == s.log && r.value.sent == s.sent
  {
    if IsRegistered(s, c) then
      if c in s.closed then None
      else Some(s.(clients := s.clients - {c.userId}, closed := s.closed + {c}))
    else Some(s)
  }

  /** Both store lookups succeed and the insert succeeds. */
  predicate Stored(s: HubState, m: Message, insertOk: bool) {
    m.From in s.users && m.To in s.users && insertOk
  }

  /**
   HandleMessageBroadcast: sender and recipient are looked up in the store,
   then the message is inserted; any failure drops the message with nothing
   changed. After the insert, a registered recipient whose queue accepts gets
   the message; one whose queue does not accept has its queue closed and is
   removed; an unregistered recipient gets nothing (no broker publish).
   Sending on a closed queue panics.
   */
  function RouteStep(s: HubState, m: Message, insertOk: bool, accepts: bool): (r: Option<HubState>)
    ensures r.None? <==> Stored(s, m, insertOk) && m.To in s.clients && s.clients[m.To] in s.closed
    ensures !Stored(s, m, insertOk) ==> r == Some(s)
    ensures r.Some? ==> r.value.users == s.users
    ensures r.Some? && Stored(s, m, insertOk) ==> r.value.log == s.log + [m]
    ensures r.Some? ==> r.value.sent == s.sent || (m.To in s.clients && r.value.sent == s.sent + [Delivery(s.clients[m.To], m)])
    ensures r.Some? && m.To !in s.clients ==>
      r.value.clients == s.clients && r.value.closed == s.closed && r.value.sent == s.sent
    ensures r.Some? && Stored(s, m, insertOk) && m.To in s.clients && accepts ==>
      && r.value.sent == s.sent + [Delivery(s.clients[m.To], m)]
      && r.value.clients == s.clients && r.value.closed == s.closed
    ensures r.Some? && Stored(s, m, insertOk) && m.To in s.clients && !accepts && KeyedByUser(s) ==>
      && r.value.sent == s.sent
      && r.value.clients == s.clients - {m.To}
      && r.value.closed == s.closed + {s.clients[m.To]}
  {
    if m.From !in s.users || m.To !in s.users || !insertOk then Some(s)
    else
      var s1 := s.(log := s.log + [m]);
      if m.To !in s.clients then Some(s1)
      else
        var d := s.clients[m.To];
        if d in s.closed then None
        else if accepts then Some(s1.(sent := s.sent + [Delivery(d, m)]))
        else Some(s1.(clients := s.clients - {d.userId}, closed := s.closed + {d}))
  }

  // ---------------------------------------------------------------------------
  // The event loop.

  /** One event, handled under the given unregister policy; `None` is a panic. */
  function Step(policy: UnregisterPolicy, s: HubState, e: Event): (r: Option<HubState>)
    ensures r.Some? ==> r.value.users == s.users && s.log <= r.value.log && s.closed <= r.value.closed
    ensures r.Some? && KeyedByUser(s) ==> KeyedByUser(r.value)
  {
    match e
    case Register(c) => Some(RegisterStep(s, c))
    case Unregister(c) => if policy == ByKey then UnregisterStep(s, c) else UnregisterOwnedStep(s, c)
    case Route(m, insertOk, accepts) => RouteStep(s, m, insertOk, accepts)
  }

  /**
   The events from index `at` on, handled in order. The store's users never
   change, the log only grows, closed queues stay closed, and the registry
   stays keyed by user id; a crash names an event of this stretch that panics
   in the state it leaves.
   */
  function RunFrom(policy: UnregisterPolicy, s: HubState, events: seq<Event>, at: nat): (o: Outcome)
    ensures o.hub.users == s.users && s.log <= o.hub.log && s.closed <= o.hub.closed
    ensures KeyedByUser(s) ==> KeyedByUser(o.hub)
    ensures o.Crashed? ==> at <= o.at < at + |events| && Step(policy, o.hub, events[o.at - at]).None?
    decreases |events|
  {
    if events == [] then Done(s)
    else match Step(policy, s, events[0])
      case None => Crashed(s, at)
      case Some(s') =>
        var o := RunFrom(policy, s', events[1..], at + 1);
        assert o.Crashed? ==> events[1..][o.at - (at + 1)] == events[o.at - at];
        o
  }

  /** `Run` as written, over a finite prefix of its endless loop. */
  function RunEvents(s: HubState, events: seq<Event>): (o: Outcome)
  {
    RunFrom(ByKey, s, events, 0)
  }

  // ---------------------------------------------------------------------------
  // The Hub object.

  class Hub {
    var clients: map<UserId, Client>
    var closed: set<Client>
    const users: set<UserId>
    var log: seq<Message>
    var sent: seq<Delivery>

    function State(): HubState
      reads this
    {
      HubState(clients, closed, users, log, sent)
    }

    predicate Valid()
      reads this
    {
      KeyedByUser(State())
    }

    /** NewHub: an empty registry over a store whose users are `users`. */
    constructor (users: set<UserId>)
      ensures Valid() && State() == NewHubState(users)
    {
      clients := map[];
      closed := {};
      this.users := users;
      log := [];
      sent := [];
    }

    /** `close(c.sendTo)`; closing a closed channel panics, hence the precondition. */
    method CloseQueue(c: Client)
      requires c !in closed
      modifies this`closed
      ensures closed == old(closed) + {c}
    {
      closed := closed + {c};
    }

    method HandleUserRegisterEvent(c: Client)
      requires Valid()
      modifies this`clients
      ensures Valid() && State() == RegisterStep(old(State()), c)
    {
      clients := clients[c.userId := c];
    }

    method HandleUserDisconnectEvent(c: Client)
      requires Valid()
      requires c.userId in clients ==> c !in closed
      modifies this`clients, this`closed
      ensures Valid() && UnregisterStep(old(State()), c) == Some(State())
    {
      if c.userId in clients {
        clients := clients - {c.userId};
        CloseQueue(c);
      }
    }

    method HandleMessageBroadcast(m: Message, insertOk: bool, accepts: bool)
      requires Valid()
      requires Stored(State(), m, insertOk) && m.To in clients ==> clients[m.To] !in closed
      modifies this`clients, this`closed, this`log, this`sent
      ensures Valid() && RouteStep(old(State()), m, insertOk, accepts) == Some(State())
    {
      if m.From !in users {
        return;
      }
      if m.To !in users {
        return;
      }
      if !insertOk {
        return;
      }
      log := log + [m];
      if m.To in clients {
        var client := clients[m.To];
        if accepts {
          sent := sent + [Delivery(client, m)];
        } else {
          CloseQueue(client);
          clients := clients - {client.userId};
        }
      }
    }

    /**
     The event loop over a finite sequence of events. `crashedAt` is the index
     of the event whose handler panicked, if one did; the state is then the
     one that event found.
     */
    method Run(events: seq<Event>) returns (crashedAt: Option<nat>)
      requires Valid()
      modifies this`clients, this`closed, this`log, this`sent
      ensures Valid()
      ensures RunEvents(old(State()), events) ==
        if crashedAt.None? then Done(State()) else Crashed(State(), crashedAt.value)
    {
      crashedAt := None;
      var i := 0;
      while i < |events|
        invariant 0 <= i <= |events|
        invariant Valid()
        invariant RunEvents(old(State()), events) == RunFrom(ByKey, State(), events[i..], i)
      {
        assert events[i..][1..] == events[i + 1..];
        match events[i] {
          case Register(c) =>
            HandleUserRegisterEvent(c);
          case Unregister(c) =>
            if c.userId in clients && c in closed {
              crashedAt := Some(i);
              return;
            }
            HandleUserDisconnectEvent(c);
          case Route(m, insertOk, accepts) =>
            if Stored(State(), m, insertOk) && m.To in clients && clients[m.To] in closed {
              crashedAt := Some(i);
              return;
            }
            HandleMessageBroadcast(m, insertOk, accepts);
        }
        i := i + 1;
      }
    }
  }

  /**
   CreateNewSocketUser: a new session for `userId` with a fresh, open queue,
   registered with the Hub. Its reader, writer and broker listener are the
   methods ReadPump, WritePump and SubscribeToRedis.
   */
  method CreateNewSocketUser(hub: Hub, userId: UserId) returns (c: Client)
    requires hub.Valid()
    modifies hub`clients
    ensures fresh(c) && c.userId == userId && c !in hub.closed
    ensures hub.Valid() && hub.State() == RegisterStep(old(hub.State()), c)
  {
    c := new Client(userId);
    hub.HandleUserRegisterEvent(c);
  }

  // ---------------------------------------------------------------------------
  // Properties of the handlers.

  /** A second unregister of the same session changes nothing. */
  lemma UnregisterTwiceIsNoOp(s: HubState, c: Client)
    requires UnregisterStep(s, c).Some?
    ensures var s1 := UnregisterStep(s, c).value; UnregisterStep(s1, c) == Some(s1)
  {
  }

  /**
   As written, unregistering a stale session (another session of the same
   user has replaced it) removes the current session from the registry but
   closes the stale session's queue: the current session is left neither
   registered nor closed.
   */
  lemma StaleUnregisterOrphansCurrent(s: HubState, c: Client)
    requires Healthy(s) && c.userId in s.clients && !IsRegistered(s, c) && c !in s.closed
    ensures var d := s.clients[c.userId];
      var r := UnregisterStep(s, c);
      && r.Some? && c in r.value.closed
      && d !in r.value.closed && d.userId !in r.value.clients
  {
  }

  /** A re-registration replaces the earlier session and leaves its queue open. */
  lemma ReRegisterOrphansPrevious(s: HubState, c: Client)
    requires Healthy(s) && c.userId in s.clients && s.clients[c.userId] != c
    ensures var d := s.clients[c.userId];
      var r := RegisterStep(s, c);
      && !IsRegistered(r, d) && d !in r.closed
  {
  }

  /** A registered session that unregisters next has its queue closed and its key removed. */
  lemma RegisterThenUnregisterCloses(policy: UnregisterPolicy, s: HubState, c: Client)
    requires KeyedByUser(s) && c !in s.closed
    ensures var o := RunFrom(policy, s, [Register(c), Unregister(c)], 0);
      o.Done? && c in o.hub.closed && c.userId !in o.hub.clients
  {
    var s1 := RegisterStep(s, c);
    assert [Register(c), Unregister(c)][1..] == [Unregister(c)];
    assert [Unregister(c)][1..] == [];
    var s2 := UnregisterStep(s1, c).value;
    assert RunFrom(policy, s1, [Unregister(c)], 1) == RunFrom(policy, s2, [], 2);
  }

  /**
   A message the broker listener synthesises for user `u` is stored as a
   message from `u` to `u` and, when `u`'s session is registered and its
   queue accepts, handed to that session.
   */
  lemma BrokerMessageReachesOwnSession(s: HubState, u: UserId, payload: string)
    requires Healthy(s) && u in s.users && u in s.clients
    ensures var r := RouteStep(s, BrokerMessage(u, payload), true, true);
      && r.Some?
      && r.value.log == s.log + [Message(u, u, payload)]
      && r.value.sent == s.sent + [Delivery(s.clients[u], Message(u, u, payload))]
  {
  }

  // ---------------------------------------------------------------------------
  // Closed exactly once?

  /**
   As written, a session dropped for a blocked queue is closed by the Hub; if
   its user then connects again and the dropped session's reader unregisters
   it, the Hub finds the key (now the new session's) and closes the dropped
   session's queue a second time, which panics.
   */
  lemma DoubleCloseAfterDropAndReregister(users: set<UserId>, a: Client, b: Client, payload: string)
    requires a != b && a.userId == b.userId && a.userId in users
    ensures var events := [Register(a), Route(BrokerMessage(a.userId, payload), true, false), Register(b), Unregister(a)];
      var o := RunEvents(NewHubState(users), events);
      o.Crashed? && o.at == 3 && a in o.hub.closed && IsRegistered(o.hub, b)
  {
    var u := a.userId;
    var m := BrokerMessage(u, payload);
    var events := [Register(a), Route(m, true, false), Register(b), Unregister(a)];
    var s0 := NewHubState(users);
    var s1 := RegisterStep(s0, a);
    var s2 := RouteStep(s1, m, true, false).value;
    var s3 := RegisterStep(s2, b);
    assert a in s2.closed && IsRegistered(s3, b);
    assert events[1..] == [Route(m, true, false), Register(b), Unregister(a)];
    assert events[1..][1..] == [Register(b), Unregister(a)];
    assert events[1..][1..][1..] == [Unregister(a)];
    assert Step(ByKey, s3, Unregister(a)).None?;
    calc {
      RunEvents(s0, events);
      RunFrom(ByKey, s1, events[1..], 1);
      RunFrom(ByKey, s2, events[1..][1..], 2);
      RunFrom(ByKey, s3, events[1..][1..][1..], 3);
      Crashed(s3, 3);
    }
  }

  /** Every event's registered session is fresh: not closed, not registered, and registered once. */
  predicate FreshRegistrations(s: HubState, events: seq<Event>) {
    forall i :: 0 <= i < |events| && events[i].Register? ==>
      && events[i].client !in s.closed
      && !IsRegistered(s, events[i].client)
      && forall j :: i < j < |events| && events[j].Register? ==> events[j].client != events[i].client
  }

  /**
   With the owner check, a healthy Hub stays healthy, never panics, and
   closes a queue only for the session it removes from the registry.
   */
  lemma OwnerCheckedStepKeepsHealth(s: HubState, e: Event)
    requires Healthy(s)
    requires e.Register? ==> e.client !in s.closed
    ensures var r := Step(ByOwner, s, e);
      && r.Some? && Healthy(r.value)
      && (forall c :: c in r.value.closed && c !in s.closed ==> IsRegistered(s, c) && !IsRegistered(r.value, c))
      && (forall c :: IsRegistered(r.value, c) && !IsRegistered(s, c) ==> e.Register? && c == e.client)
  {
    var r := Step(ByOwner, s, e).value;
    match e
    case Register(c) =>
    case Unregister(c) =>
    case Route(m, insertOk, accepts) =>
      if Stored(s, m, insertOk) && m.To in s.clients && !accepts {
        var d := s.clients[m.To];
        forall c | IsRegistered(r, c)
          ensures c != d
        {
        }
      }
  }

  /**
   With the owner check, a Hub that starts healthy and registers each
   session once never panics: every queue is closed at most once, and only
   when its session leaves the registry.
   */
  lemma {:induction false} OwnerCheckedRunNeverCrashes(s: HubState, events: seq<Event>, at: nat)
    requires Healthy(s) && FreshRegistrations(s, events)
    ensures var o := RunFrom(ByOwner, s, events, at); o.Done? && Healthy(o.hub)
    decreases |events|
  {
    if events != [] {
      var e := events[0];
      OwnerCheckedStepKeepsHealth(s, e);
      var s' := Step(ByOwner, s, e).value;
      var rest := events[1..];
      forall i | 0 <= i < |rest| && rest[i].Register?
        ensures rest[i].client !in s'.closed && !IsRegistered(s', rest[i].client)
      {
        assert rest[i] == events[i + 1];
        assert e.Register? ==> rest[i].client != e.client;
      }
      assert FreshRegistrations(s', rest) by {
        forall i, j | 0 <= i < j < |rest| && rest[i].Register? && rest[j].Register?
          ensures rest[j].client != rest[i].client
        {
          assert rest[i] == events[i + 1] && rest[j] == events[j + 1];
        }
      }
      OwnerCheckedRunNeverCrashes(s', rest, at + 1);
    }
  }

  /** From a new Hub, the owner-checked loop never panics when each session registers once. */
  lemma OwnerCheckedHubNeverCrashes(users: set<UserId>, events: seq<Event>)
    requires forall i, j :: 0 <= i < j < |events| && events[i].Register? && events[j].Register? ==>
               events[i].client != events[j].client
    ensures RunFrom(ByOwner, NewHubState(users), events, 0).Done?
  {
    OwnerCheckedRunNeverCrashes(NewHubState(users), events, 0);
  }
}
