/** The broker of server/broker/simple/simple.go: its registry, its queues, and the sessions and
    requests around it, for all devices.

    The functions say what the agent does with one item of its two channels.  The class carries them
    out on session objects; the transition system runs them against any interleaving of devices that
    connect and break off, requests that store notifications, and sessions that deliver them. */
module Broker {
  import opened Sequences
  import opened Store
  import opened ChannelIds

  datatype Exchange = Kick | BroadcastExchange(chanId: ChannelId) | UnicastExchange(chanId: ChannelId)

  datatype Delivery = BroadcastDelivery(chanId: ChannelId) | UnicastDelivery(chanId: ChannelId)

  // ----- The agent -----------------------------------------------------------------------------

  /** Unregistering removes the session only if it is still the current one of its device. */
  function AfterUnregister(registry: map<string, nat>, deviceId: string, sid: nat): (r: map<string, nat>) {
    if deviceId in registry && registry[deviceId] == sid then registry - {deviceId} else registry
  }

  /** The session that a new one of the device replaces. */
  function Replaced(registry: map<string, nat>, deviceId: string): (r: Option<nat>) {
    if deviceId in registry then Some(registry[deviceId]) else None
  }

  /** The session that gets the exchange of a unicast delivery. */
  function Target(registry: map<string, nat>, chanId: ChannelId): (r: Option<nat>) {
    if chanId == "" then None
    else
      match UnicastUserAndDevice(chanId)
      case None => None
      case Some((_, deviceId)) => Replaced(registry, deviceId)
  }

  class Session {
    const sid: nat
    const deviceId: string
    var registered: bool
    var exchanges: seq<Exchange>

    constructor (sid: nat, deviceId: string)
      ensures this.sid == sid && this.deviceId == deviceId && !registered && exchanges == []
    {
      this.sid, this.deviceId, registered, exchanges := sid, deviceId, false, [];
    }

    method Feed(exchange: Exchange)
      modifies this`exchanges
      ensures exchanges == old(exchanges) + [exchange]
    {
      exchanges := exchanges + [exchange];
    }
  }

  class SimpleBroker {
    var registry: map<string, Session>
    var sessionCh: seq<Session>
    var deliveryCh: seq<Delivery>
    ghost var known: set<Session>

    constructor ()
      ensures Valid() && Sids() == map[] && sessionCh == [] && deliveryCh == [] && known == {}
    {
      registry, sessionCh, deliveryCh, known := map[], [], [], {};
    }

    static ghost predicate DistinctSids(sessions: set<Session>) {
      forall a, b :: a in sessions && b in sessions && a.sid == b.sid ==> a == b
    }

    ghost predicate Valid()
      reads this
    {
      && registry.Values <= known
      && (forall s :: s in sessionCh ==> s in known)
      && DistinctSids(known)
      && (forall d :: d in registry ==> registry[d].deviceId == d)
    }

    ghost function Sids(): (r: map<string, nat>)
      reads this
    {
      map d | d in registry :: registry[d].sid
    }

    /** The first half of registering: the session goes to the agent. */
    method Join(sid: nat, deviceId: string) returns (sess: Session)
      requires Valid() && forall s :: s in known ==> s.sid != sid
      modifies this`sessionCh, this`known
      ensures Valid() && fresh(sess) && known == old(known) + {sess}
      ensures sess.sid == sid && sess.deviceId == deviceId && !sess.registered && sess.exchanges == []
      ensures sessionCh == old(sessionCh) + [sess]
    {
      sess := new Session(sid, deviceId);
      sessionCh := sessionCh + [sess];
      known := known + {sess};
    }

    method Unregister(sess: Session)
      requires Valid() && sess in known
      modifies this`sessionCh
      ensures Valid() && sessionCh == old(sessionCh) + [sess]
    {
      sessionCh := sessionCh + [sess];
    }

    method Broadcast(chanId: ChannelId)
      modifies this`deliveryCh
      ensures deliveryCh == old(deliveryCh) + [BroadcastDelivery(chanId)]
    {
      deliveryCh := deliveryCh + [BroadcastDelivery(chanId)];
    }

    method Unicast(chanIds: seq<ChannelId>)
      modifies this`deliveryCh
      ensures |deliveryCh| == |old(deliveryCh)| + |chanIds| && old(deliveryCh) <= deliveryCh
      ensures forall i :: 0 <= i < |chanIds| ==> deliveryCh[|old(deliveryCh)| + i] == UnicastDelivery(chanIds[i])
    {
      for i := 0 to |chanIds|
        invariant |deliveryCh| == |old(deliveryCh)| + i && old(deliveryCh) <= deliveryCh
        invariant forall k :: 0 <= k < i ==> deliveryCh[|old(deliveryCh)| + k] == UnicastDelivery(chanIds[k])
      {
        deliveryCh := deliveryCh + [UnicastDelivery(chanIds[i])];
      }
    }

    /** Of these sessions only the target has a new exchange in its queue. */
    static twostate predicate OnlyFed(sessions: set<Session>, target: Option<nat>, exchange: Exchange)
      reads sessions
    {
      forall s :: s in sessions ==>
        s.exchanges == old(s.exchanges) + if target == Some(s.sid) then [exchange] else []
    }

    /** The agent takes a session: it registers it and kicks the one it replaces, or unregisters it. */
    method HandleSession()
      requires Valid() && sessionCh != []
      modifies this`registry, this`sessionCh, known
      ensures Valid() && sessionCh == old(sessionCh)[1..]
      ensures var s := old(sessionCh)[0];
              && (old(s.registered) ==>
                    && Sids() == AfterUnregister(old(Sids()), s.deviceId, s.sid)
                    && OnlyFed(known, None, Kick))
              && (!old(s.registered) ==>
                    && Sids() == old(Sids())[s.deviceId := s.sid]
                    && OnlyFed(known, Replaced(old(Sids()), s.deviceId), Kick))
              && s.registered
              && forall o :: o in known && o != s ==> o.registered == old(o.registered)
    {
      var sess := sessionCh[0];
      sessionCh := sessionCh[1..];
      if sess.registered {
        Remove(sess);
      } else {
        Admit(sess);
      }
    }

    method Remove(sess: Session)
      requires Valid() && sess in known
      modifies this`registry
      ensures Valid() && Sids() == AfterUnregister(old(Sids()), sess.deviceId, sess.sid)
    {
      if sess.deviceId in registry && registry[sess.deviceId] == sess {
        registry := registry - {sess.deviceId};
      }
    }

    /** The session of a device in the registry is the only one with its id. */
    lemma {:induction false} SameSession(sess: Session)
      requires Valid()
      ensures sess.deviceId in registry ==>
                forall o :: o in known && o.sid == registry[sess.deviceId].sid ==> o == registry[sess.deviceId]
    {
    }

    method Admit(sess: Session)
      requires Valid() && sess in known && !sess.registered
      modifies this`registry, known
      ensures Valid() && Sids() == old(Sids())[sess.deviceId := sess.sid]
      ensures OnlyFed(known, Replaced(old(Sids()), sess.deviceId), Kick)
      ensures sess.registered && forall o :: o in known && o != sess ==> o.registered == old(o.registered)
    {
      SameSession(sess);
      hide DistinctSids;
      if sess.deviceId in registry {
        registry[sess.deviceId].Feed(Kick);
      }
      registry := registry[sess.deviceId := sess];
      sess.registered := true;
    }

    /** The agent takes a delivery: a broadcast goes to every current session, a unicast to the
        current session of the device of its channel. */
    method HandleDelivery()
      requires Valid() && deliveryCh != []
      requires deliveryCh[0].UnicastDelivery? ==>
                 deliveryCh[0].chanId != "" && UnicastUserAndDevice(deliveryCh[0].chanId).Some?
      modifies this`deliveryCh, known
      ensures Valid() && deliveryCh == old(deliveryCh)[1..] && Sids() == old(Sids())
      ensures var d := old(deliveryCh)[0];
              && (d.UnicastDelivery? ==> OnlyFed(known, Target(old(Sids()), d.chanId), UnicastExchange(d.chanId)))
              && (d.BroadcastDelivery? ==>
                    forall o :: o in known ==>
                      o.exchanges == old(o.exchanges) +
                                     if o in registry.Values then [BroadcastExchange(d.chanId)] else [])
      ensures forall o :: o in known ==> o.registered == old(o.registered)
    {
      var d := deliveryCh[0];
      deliveryCh := deliveryCh[1..];
      match d
      case BroadcastDelivery(chanId) =>
        var rest := registry.Values;
        while rest != {}
          invariant rest <= registry.Values
          invariant forall o :: o in known ==>
                      && o.registered == old(o.registered)
                      && o.exchanges == old(o.exchanges) +
                                        if o in registry.Values - rest then [BroadcastExchange(chanId)] else []
          modifies known
        {
          var sess :| sess in rest;
          sess.Feed(BroadcastExchange(chanId));
          rest := rest - {sess};
        }
      case UnicastDelivery(chanId) =>
        var devId := UnicastUserAndDevice(chanId).value.1;
        if devId in registry {
          registry[devId].Feed(UnicastExchange(chanId));
        }
    }
  }
}
