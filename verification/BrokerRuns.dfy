/** Runs of the broker: devices that connect and break off, requests that store notifications and ask
    for their delivery, the broker's agent, and the server's sessions, interleaved in any way.

    Dropping the acknowledged ids is `WithoutIds`, as it is whenever message ids are distinct. */
module BrokerRuns {
  import opened Sequences
  import opened Messages
  import opened Store
  import opened ChannelIds
  import opened Broker

  /** `Joining`: waiting for the agent.  `Admitted`: registered but not yet fed.  `Running`: in its
      session loop.  `Over`: the loop has ended.  `Left`: given to the agent to be unregistered. */
  datatype Stage = Joining | Admitted | Running | Over | Left

  /** A NOTIFICATIONS exchange under way; `pending` is what has not been acknowledged of it. */
  datatype Busy = Busy(chanId: ChannelId, part: seq<Notification>, rest: seq<Notification>)

  datatype Sess = Sess(deviceId: string, stage: Stage, queue: seq<Exchange>, busy: Option<Busy>)

  datatype State = State(
    now: int,
    store: map<ChannelId, seq<Entry>>,
    requests: seq<ChannelId>,            // stored, but the delivery is still to be asked for
    deliveryCh: seq<Delivery>,
    sessionCh: seq<nat>,
    registry: map<string, nat>,
    sessions: map<nat, Sess>,
    latest: map<string, nat>,            // history: the session of each device registered last
    kicked: seq<nat>,                    // history: sessions that were sent a kick, one entry a kick
    removed: set<nat>)                   // history: sessions taken out of the registry when they left

  const INIT := State(0, map[], [], [], [], map[], map[], map[], [], {})

  datatype Step =
    | Tick(d: nat)
    | Append(userId: string, deviceId: string, e: Entry)
    | Scrub(chanId: ChannelId, appId: string, replaceTag: string)
    | Request(i: nat)
    | Broadcast(chanId: ChannelId)
    | Join(sid: nat, deviceId: string)
    | AgentSession
    | AgentDelivery
    | FeedPending(sid: nat, behind: bool)
    | Next(sid: nat)
    | Acked(sid: nat)
    | Break(sid: nat)
    | Leave(sid: nat)

  function Entries(s: State, c: ChannelId): (r: seq<Entry>) {
    if c in s.store then s.store[c] else []
  }

  /** The exchange goes on with the next part, if anything is left. */
  function SendNext(c: ChannelId, ns: seq<Notification>): (b: Option<Busy>) {
    if ns == [] then None else Some(Busy(c, NextPart(ns).0, NextPart(ns).1))
  }

  function Feed(sessions: map<nat, Sess>, target: Option<nat>, x: Exchange): (r: map<nat, Sess>)
    ensures r.Keys == sessions.Keys
    ensures forall sid :: sid in sessions ==> r[sid] == sessions[sid].(queue := r[sid].queue)
  {
    if target.Some? && target.value in sessions then
      var sess := sessions[target.value];
      sessions[target.value := sess.(queue := sess.queue + [x])]
    else sessions
  }

  function FeedAll(sessions: map<nat, Sess>, targets: set<nat>, x: Exchange): (r: map<nat, Sess>)
    ensures r.Keys == sessions.Keys
    ensures forall sid :: sid in sessions ==> r[sid] == sessions[sid].(queue := r[sid].queue)
  {
    map sid | sid in sessions ::
      if sid in targets then sessions[sid].(queue := sessions[sid].queue + [x]) else sessions[sid]
  }

  predicate At(s: State, sid: nat, stage: Stage) {
    sid in s.sessions && s.sessions[sid].stage == stage
  }

  predicate Enabled(s: State, step: Step) {
    match step
    case Tick(_) => true
    case Append(_, _, _) => true
    case Scrub(_, _, _) => true
    case Request(i) => i < |s.requests|
    case Broadcast(_) => true
    case Join(sid, _) => sid !in s.sessions
    case AgentSession => s.sessionCh != [] && s.sessionCh[0] in s.sessions
    case AgentDelivery => s.deliveryCh != []
    case FeedPending(sid, _) => At(s, sid, Admitted)
    case Next(sid) => At(s, sid, Running) && s.sessions[sid].queue != [] && s.sessions[sid].busy.None?
    case Acked(sid) => At(s, sid, Running) && s.sessions[sid].busy.Some?
    case Break(sid) => At(s, sid, Running)
    case Leave(sid) => At(s, sid, Over)
  }

  function WithSession(s: State, sid: nat, sess: Sess): (r: State) {
    s.(sessions := s.sessions[sid := sess])
  }

  /** The agent takes the first session of its channel. */
  function Agent(s: State): (r: State)
    requires Enabled(s, AgentSession)
  {
    var sid := s.sessionCh[0];
    var sess := s.sessions[sid];
    if sess.stage == Joining then
      var kick := Replaced(s.registry, sess.deviceId);
      var fed := Feed(s.sessions, kick, Kick);
      s.(sessionCh := s.sessionCh[1..],
         registry := s.registry[sess.deviceId := sid],
         sessions := fed[sid := sess.(stage := Admitted)],
         latest := s.latest[sess.deviceId := sid],
         kicked := s.kicked + if kick.Some? then [kick.value] else [])
    else
      s.(sessionCh := s.sessionCh[1..],
         registry := AfterUnregister(s.registry, sess.deviceId, sid),
         removed := if sess.deviceId in s.registry && s.registry[sess.deviceId] == sid
                    then s.removed + {sid} else s.removed)
  }

  function Deliver(s: State): (r: State)
    requires Enabled(s, AgentDelivery)
  {
    var t := s.(deliveryCh := s.deliveryCh[1..]);
    match s.deliveryCh[0]
    case UnicastDelivery(c) => t.(sessions := Feed(s.sessions, Target(s.registry, c), UnicastExchange(c)))
    case BroadcastDelivery(c) => t.(sessions := FeedAll(s.sessions, s.registry.Values, BroadcastExchange(c)))
  }

  /** The session loop takes the next exchange.  What a broadcast sends is of no interest here. */
  function TakeNext(s: State, sid: nat): (r: State)
    requires Enabled(s, Next(sid))
  {
    var sess := s.sessions[sid];
    var popped := sess.(queue := sess.queue[1..]);
    match sess.queue[0]
    case Kick => WithSession(s, sid, popped.(stage := Over))
    case BroadcastExchange(_) => WithSession(s, sid, popped)
    case UnicastExchange(c) => WithSession(s, sid, popped.(busy := SendNext(c, Notifs(Live(Entries(s, c), s.now)))))
  }

  function Acknowledge(s: State, sid: nat): (r: State)
    requires Enabled(s, Acked(sid))
  {
    var sess := s.sessions[sid];
    var Busy(c, part, rest) := sess.busy.value;
    WithSession(s, sid, sess.(busy := SendNext(c, rest)))
      .(store := s.store[c := WithoutIds(Entries(s, c), IdSet(part))])
  }

  function OwnChannel(deviceId: string): (r: ChannelId) {
    UnicastInternalChannelId(deviceId, deviceId)
  }

  function Pending(sess: Sess, behind: bool): (r: seq<Exchange>) {
    (if behind then [BroadcastExchange(SYSTEM_CHANNEL)] else []) + [UnicastExchange(OwnChannel(sess.deviceId))]
  }

  function Do(s: State, step: Step): (r: State)
    requires Enabled(s, step)
  {
    match step
    case Tick(d) => s.(now := s.now + d)
    case Append(userId, deviceId, e) =>
      var c := UnicastInternalChannelId(userId, deviceId);
      s.(store := s.store[c := Entries(s, c) + [e]], requests := s.requests + [c])
    case Scrub(c, appId, replaceTag) =>
      s.(store := s.store[c := Unmatched(Live(Entries(s, c), s.now), appId, replaceTag)])
    case Request(i) =>
      s.(requests := s.requests[..i] + s.requests[i + 1..],
         deliveryCh := s.deliveryCh + [UnicastDelivery(s.requests[i])])
    case Broadcast(c) => s.(deliveryCh := s.deliveryCh + [BroadcastDelivery(c)])
    case Join(sid, deviceId) =>
      WithSession(s, sid, Sess(deviceId, Joining, [], None)).(sessionCh := s.sessionCh + [sid])
    case AgentSession => Agent(s)
    case AgentDelivery => Deliver(s)
    case FeedPending(sid, behind) =>
      var sess := s.sessions[sid];
      WithSession(s, sid, sess.(stage := Running, queue := sess.queue + Pending(sess, behind)))
    case Next(sid) => TakeNext(s, sid)
    case Acked(sid) => Acknowledge(s, sid)
    case Break(sid) => WithSession(s, sid, s.sessions[sid].(stage := Over))
    case Leave(sid) =>
      WithSession(s, sid, s.sessions[sid].(stage := Left)).(sessionCh := s.sessionCh + [sid])
  }

  /** As in `UnicastDelivery`: no stored entry has the key of the new one. */
  ghost predicate Guarded(s: State, step: Step) {
    step.Append? ==>
      forall x :: x in Entries(s, UnicastInternalChannelId(step.userId, step.deviceId)) ==> !SameKey(x, step.e)
  }

  ghost predicate IsRun(run: seq<State>, steps: seq<Step>) {
    && |run| == |steps| + 1 && run[0] == INIT
    && forall i :: 0 <= i < |steps| ==> Enabled(run[i], steps[i]) && run[i + 1] == Do(run[i], steps[i])
  }

  ghost predicate IsGuardedRun(run: seq<State>, steps: seq<Step>) {
    IsRun(run, steps) && forall k :: 0 <= k < |steps| ==> Guarded(run[k], steps[k])
  }

  // ----- The registry --------------------------------------------------------------------------

  ghost predicate QueueInv(s: State) {
    && Distinct(s.sessionCh)
    && forall sid :: sid in s.sessionCh ==> At(s, sid, Joining) || At(s, sid, Left)
  }

  ghost predicate RegistryInv(s: State) {
    forall d :: d in s.registry ==>
      && s.registry[d] in s.sessions && s.sessions[s.registry[d]].deviceId == d
      && s.sessions[s.registry[d]].stage != Joining
      && d in s.latest && s.latest[d] == s.registry[d]
  }

  ghost predicate LatestInv(s: State) {
    forall d :: d in s.latest ==>
      && s.latest[d] in s.sessions && s.sessions[s.latest[d]].deviceId == d
      && (d in s.registry || s.latest[d] in s.removed)
  }

  ghost predicate Registered(s: State, sid: nat) {
    sid in s.sessions && s.sessions[sid].deviceId in s.registry && s.registry[s.sessions[sid].deviceId] == sid
  }

  /** Once registered, a session is in the registry, or was kicked, or was removed as it left. */
  ghost predicate PlaceInv(s: State, sid: nat)
    requires sid in s.sessions
  {
    if s.sessions[sid].stage == Joining then sid !in s.kicked && sid !in s.removed
    else
      && s.sessions[sid].deviceId in s.latest
      && (Registered(s, sid) || sid in s.kicked || sid in s.removed)
      && (sid in s.kicked ==> !Registered(s, sid) && sid !in s.removed)
      && (sid in s.removed ==> !Registered(s, sid) && s.sessions[sid].stage == Left)
  }

  ghost predicate Inv(s: State) {
    && QueueInv(s) && RegistryInv(s) && LatestInv(s)
    && (forall sid :: sid in s.sessions ==> PlaceInv(s, sid))
    && Distinct(s.kicked) && (forall sid :: sid in s.kicked ==> sid in s.sessions)
    && (forall sid :: sid in s.removed ==> sid in s.sessions)
  }

  /** Steps that only move sessions on between the stages after registration, or touch the queues. */
  lemma {:induction false} RegistryFrame(s: State, t: State)
    requires Inv(s)
    requires t.sessionCh == s.sessionCh && t.registry == s.registry && t.latest == s.latest
    requires t.kicked == s.kicked && t.removed == s.removed && t.sessions.Keys == s.sessions.Keys
    requires forall sid :: sid in s.sessions ==> t.sessions[sid].deviceId == s.sessions[sid].deviceId
    requires forall sid :: sid in s.sessions ==>
               t.sessions[sid].stage == s.sessions[sid].stage ||
               (s.sessions[sid].stage != Joining && t.sessions[sid].stage != Joining && s.sessions[sid].stage != Left)
    ensures Inv(t)
  {
    forall sid | sid in t.sessions
      ensures PlaceInv(t, sid)
    {
      assert PlaceInv(s, sid);
    }
  }

  lemma {:induction false} PushDistinct(q: seq<nat>, x: nat)
    requires Distinct(q) && x !in q
    ensures Distinct(q + [x]) && forall y :: y in q + [x] <==> y in q || y == x
  {
  }

  lemma {:induction false} PopDistinct(q: seq<nat>)
    requires Distinct(q) && q != []
    ensures Distinct(q[1..]) && q[0] !in q[1..] && forall y :: y in q[1..] ==> y in q
  {
  }

  lemma {:induction false} JoinKeeps(s: State, sid: nat, deviceId: string)
    requires Inv(s) && Enabled(s, Join(sid, deviceId))
    ensures Inv(Do(s, Join(sid, deviceId)))
  {
    var t := Do(s, Join(sid, deviceId));
    PushDistinct(s.sessionCh, sid);
    hide Distinct;
    forall x | x in t.sessions
      ensures PlaceInv(t, x)
    {
      if x != sid {
        assert PlaceInv(s, x);
      }
    }
  }

  lemma {:induction false} LeaveKeeps(s: State, sid: nat)
    requires Inv(s) && Enabled(s, Leave(sid))
    ensures Inv(Do(s, Leave(sid)))
  {
    var t := Do(s, Leave(sid));
    PushDistinct(s.sessionCh, sid);
    hide Distinct;
    forall x | x in t.sessions
      ensures PlaceInv(t, x)
    {
      assert PlaceInv(s, x);
    }
  }

  lemma {:induction false} RegisterPlace(s: State, x: nat)
    requires Inv(s) && Enabled(s, AgentSession) && At(s, s.sessionCh[0], Joining)
    requires x in s.sessions
    ensures PlaceInv(Agent(s), x)
  {
    hide QueueInv, LatestInv, Distinct;
    var sid := s.sessionCh[0];
    var d := s.sessions[sid].deviceId;
    assert PlaceInv(s, x) && PlaceInv(s, sid);
    if d in s.registry {
      assert PlaceInv(s, s.registry[d]);
    }
  }

  lemma {:induction false} RegisterQueue(s: State)
    requires Inv(s) && Enabled(s, AgentSession) && At(s, s.sessionCh[0], Joining)
    ensures QueueInv(Agent(s))
  {
    PopDistinct(s.sessionCh);
    hide Distinct, PlaceInv, Feed, RegistryInv, LatestInv;
  }

  lemma {:induction false} RegisterMaps(s: State)
    requires Inv(s) && Enabled(s, AgentSession) && At(s, s.sessionCh[0], Joining)
    ensures RegistryInv(Agent(s)) && LatestInv(Agent(s))
  {
    hide Distinct, PlaceInv, Feed, QueueInv;
  }

  lemma {:induction false} RegisterKeeps(s: State)
    requires Inv(s) && Enabled(s, AgentSession) && At(s, s.sessionCh[0], Joining)
    ensures Inv(Agent(s))
  {
    RegisterQueue(s);
    RegisterMaps(s);
    forall x | x in s.sessions
      ensures PlaceInv(Agent(s), x)
    {
      RegisterPlace(s, x);
    }
    hide Distinct, PlaceInv, Feed, QueueInv, RegistryInv, LatestInv;
  }

  lemma {:induction false} UnregisterKeeps(s: State)
    requires Inv(s) && Enabled(s, AgentSession) && !At(s, s.sessionCh[0], Joining)
    ensures Inv(Agent(s))
  {
    var t, sid := Agent(s), s.sessionCh[0];
    PopDistinct(s.sessionCh);
    hide Distinct;
    forall x | x in t.sessions
      ensures PlaceInv(t, x)
    {
      assert PlaceInv(s, x);
    }
  }

  /** The fields the registry invariants speak of. */
  ghost predicate SameRegistry(s: State, t: State) {
    && t.sessionCh == s.sessionCh && t.registry == s.registry && t.latest == s.latest
    && t.kicked == s.kicked && t.removed == s.removed && t.sessions.Keys == s.sessions.Keys
  }

  lemma {:induction false} DeliverKeeps(s: State)
    requires Inv(s) && Enabled(s, AgentDelivery)
    ensures Inv(Deliver(s))
  {
    hide Inv, Target;
    assert SameRegistry(s, Deliver(s));
    RegistryFrame(s, Deliver(s));
  }

  lemma {:induction false} MoveKeeps(s: State, t: State, sid: nat)
    requires Inv(s) && sid in s.sessions && s.sessions[sid].stage in {Admitted, Running}
    requires sid in t.sessions && t.sessions[sid].stage in {Admitted, Running, Over}
    requires t.sessions[sid].deviceId == s.sessions[sid].deviceId
    requires SameRegistry(s, t)
    requires forall x :: x in s.sessions && x != sid ==> t.sessions[x] == s.sessions[x]
    ensures Inv(t)
  {
    hide Inv;
    RegistryFrame(s, t);
  }

  lemma {:induction false} NextKeeps(s: State, sid: nat)
    requires Inv(s) && Enabled(s, Next(sid))
    ensures Inv(TakeNext(s, sid))
  {
    hide Inv, SendNext;
    MoveKeeps(s, TakeNext(s, sid), sid);
  }

  lemma {:induction false} AckKeeps(s: State, sid: nat)
    requires Inv(s) && Enabled(s, Acked(sid))
    ensures Inv(Acknowledge(s, sid))
  {
    hide Inv, SendNext, WithoutIds;
    MoveKeeps(s, Acknowledge(s, sid), sid);
  }

  lemma {:induction false} FeedKeeps(s: State, sid: nat, behind: bool)
    requires Inv(s) && Enabled(s, FeedPending(sid, behind))
    ensures Inv(Do(s, FeedPending(sid, behind)))
  {
    hide Inv, Pending;
    MoveKeeps(s, Do(s, FeedPending(sid, behind)), sid);
  }

  lemma {:induction false} StepKeeps(s: State, step: Step)
    requires Inv(s) && Enabled(s, step)
    ensures Inv(Do(s, step))
  {
    hide Inv, Live, Unmatched, Deliver, Agent, TakeNext, Acknowledge;
    match step
    case Join(sid, deviceId) => JoinKeeps(s, sid, deviceId);
    case Leave(sid) => LeaveKeeps(s, sid);
    case AgentSession =>
      if At(s, s.sessionCh[0], Joining) { RegisterKeeps(s); } else { UnregisterKeeps(s); }
    case AgentDelivery => DeliverKeeps(s);
    case FeedPending(sid, behind) => FeedKeeps(s, sid, behind);
    case Next(sid) => NextKeeps(s, sid);
    case Acked(sid) => AckKeeps(s, sid);
    case Break(sid) => MoveKeeps(s, Do(s, step), sid);
    case _ => RegistryFrame(s, Do(s, step));
  }

  // ----- Wake-ups ------------------------------------------------------------------------------

  /** Something is under way that will bring the entry with this id to the session. */
  ghost predicate Covered(s: State, sess: Sess, c: ChannelId, id: string) {
    || sess.stage == Admitted
    || c in s.requests
    || UnicastDelivery(c) in s.deliveryCh
    || UnicastExchange(c) in sess.queue
    || (sess.busy.Some? && sess.busy.value.chanId == c && id in Ids(sess.busy.value.part + sess.busy.value.rest))
  }

  /** The device has a session in the registry that has not ended. */
  ghost predicate Online(s: State, d: string) {
    d in s.registry && (At(s, s.registry[d], Admitted) || At(s, s.registry[d], Running))
  }

  ghost predicate Awake(s: State, d: string)
    requires Online(s, d)
  {
    forall e :: e in Entries(s, OwnChannel(d)) && !Expired(e, s.now) ==>
      Covered(s, s.sessions[s.registry[d]], OwnChannel(d), e.notif.msgId)
  }

  ghost predicate AllAwake(s: State) {
    forall d :: Online(s, d) && ':' !in d ==> Awake(s, d)
  }

  ghost predicate KeysInv(s: State) {
    forall c :: c in s.store ==> KeyUnique(s.store[c])
  }

  lemma {:induction false} KeysKeep(s: State, step: Step)
    requires KeysInv(s) && Enabled(s, step) && Guarded(s, step)
    ensures KeysInv(Do(s, step))
  {
    hide Agent, Deliver, TakeNext, SendNext;
    match step
    case Append(userId, deviceId, e) =>
      hide KeyUnique;
      AppendUnique(Entries(s, UnicastInternalChannelId(userId, deviceId)), e) by {
        EmptyUnique();
      }
    case Scrub(c, appId, replaceTag) =>
      hide KeyUnique;
      LiveAreUnique(Entries(s, c), s.now);
      UnmatchedUnique(Live(Entries(s, c), s.now), appId, replaceTag);
    case Acked(sid) =>
      hide KeyUnique;
      var b := s.sessions[sid].busy.value;
      EmptyUnique();
      WithoutIdsUnique(Entries(s, b.chanId), IdSet(b.part));
    case AgentSession => AgentStores(s);
    case AgentDelivery => DeliverStores(s);
    case Next(sid) => NextStores(s, sid);
    case _ =>
  }

  lemma {:induction false} AgentStores(s: State)
    requires Enabled(s, AgentSession)
    ensures Agent(s).store == s.store
  {
  }

  lemma {:induction false} DeliverStores(s: State)
    requires Enabled(s, AgentDelivery)
    ensures Deliver(s).store == s.store
  {
  }

  lemma {:induction false} NextStores(s: State, sid: nat)
    requires Enabled(s, Next(sid))
    ensures TakeNext(s, sid).store == s.store
  {
  }

  lemma {:induction false} EmptyUnique()
    ensures KeyUnique([])
  {
  }

  lemma {:induction false} AppendUnique(es: seq<Entry>, e: Entry)
    requires KeyUnique(es) && forall x :: x in es ==> !SameKey(x, e)
    ensures KeyUnique(es + [e])
  {
    assert forall i :: 0 <= i < |es| ==> es[i] in es;
  }

  /** The same session, no new entries, and whatever covered an entry still does. */
  lemma {:induction false} StaysAwake(s: State, t: State, d: string)
    requires Online(s, d) && Awake(s, d) && Online(t, d) && t.registry[d] == s.registry[d] && s.now <= t.now
    requires forall e :: e in Entries(t, OwnChannel(d)) ==> e in Entries(s, OwnChannel(d))
    requires forall e :: e in Entries(t, OwnChannel(d)) && !Expired(e, t.now) ==>
               var c, id := OwnChannel(d), e.notif.msgId;
               Covered(s, s.sessions[s.registry[d]], c, id) ==> Covered(t, t.sessions[t.registry[d]], c, id)
    ensures Awake(t, d)
  {
  }

  lemma {:induction false} AgentWakes(s: State, d: string)
    requires Inv(s) && Enabled(s, AgentSession) && Online(Agent(s), d)
    requires Online(s, d) ==> Awake(s, d)
    ensures Awake(Agent(s), d)
  {
    hide PlaceInv, LatestInv, Distinct;
    var t, sid := Agent(s), s.sessionCh[0];
    if At(s, sid, Joining) && s.sessions[sid].deviceId == d {
    } else {
      assert At(s, sid, Joining) || At(s, sid, Left);
      var c, x := OwnChannel(d), s.registry[d];
      assert x != sid;
      assert t.sessions[x] == s.sessions[x];
      StaysAwake(s, t, d);
    }
  }

  lemma {:induction false} ScrubWakes(s: State, c: ChannelId, appId: string, replaceTag: string, d: string)
    requires Online(s, d) && Awake(s, d)
    ensures Awake(Do(s, Scrub(c, appId, replaceTag)), d)
  {
    hide Live, Unmatched;
    LiveAreUnique(Entries(s, c), s.now);
    UnmatchedSubset(Live(Entries(s, c), s.now), appId, replaceTag);
    StaysAwake(s, Do(s, Scrub(c, appId, replaceTag)), d);
  }

  lemma {:induction false} AppendWakes(s: State, step: Step, d: string)
    requires step.Append? && Online(s, d) && Awake(s, d)
    ensures Awake(Do(s, step), d)
  {
    var t, c := Do(s, step), OwnChannel(d);
    if c == UnicastInternalChannelId(step.userId, step.deviceId) {
      assert t.requests[|s.requests|] == c;
    } else {
      StaysAwake(s, t, d);
    }
  }

  lemma {:induction false} RequestWakes(s: State, i: nat, d: string)
    requires Enabled(s, Request(i)) && Online(s, d) && Awake(s, d)
    ensures Awake(Do(s, Request(i)), d)
  {
    var t, c := Do(s, Request(i)), OwnChannel(d);
    if c == s.requests[i] {
      assert t.deliveryCh[|s.deliveryCh|] == UnicastDelivery(c);
    } else if c in s.requests {
      var k :| 0 <= k < |s.requests| && s.requests[k] == c;
      assert t.requests[if k < i then k else k - 1] == c;
    }
    StaysAwake(s, t, d);
  }

  lemma {:induction false} DeliverWakes(s: State, d: string)
    requires Enabled(s, AgentDelivery) && Online(Deliver(s), d) && ':' !in d
    requires Online(s, d) ==> Awake(s, d)
    ensures Awake(Deliver(s), d)
  {
    hide UnicastUserAndDevice, UnicastInternalChannelId;
    var t, c := Deliver(s), OwnChannel(d);
    var sess, sess' := s.sessions[s.registry[d]], t.sessions[s.registry[d]];
    OwnChannelIff(d);
    assert Target(s.registry, c) == Some(s.registry[d]);
    assert sess.queue <= sess'.queue;
    if UnicastDelivery(c) in s.deliveryCh && s.deliveryCh[0] != UnicastDelivery(c) {
      assert UnicastDelivery(c) in t.deliveryCh;
    }
    if s.deliveryCh[0] == UnicastDelivery(c) {
      assert sess'.queue[|sess.queue|] == UnicastExchange(c);
    }
    StaysAwake(s, t, d);
  }

  lemma {:induction false} FeedWakes(s: State, sid: nat, behind: bool, d: string)
    requires RegistryInv(s) && Enabled(s, FeedPending(sid, behind)) && Online(s, d) && Awake(s, d)
    ensures Awake(Do(s, FeedPending(sid, behind)), d)
  {
    var t, c := Do(s, FeedPending(sid, behind)), OwnChannel(d);
    var sess, sess' := s.sessions[s.registry[d]], t.sessions[s.registry[d]];
    if s.registry[d] == sid {
      assert sess'.queue[|sess'.queue| - 1] == UnicastExchange(c);
    }
    StaysAwake(s, t, d);
  }

  /** A snapshot has every entry that has not expired, since no two stored entries share a key. */
  lemma {:induction false} SnapshotHasAll(es: seq<Entry>, now: int, e: Entry)
    requires KeyUnique(es) && e in es && !Expired(e, now)
    ensures e.notif.msgId in Ids(Notifs(Live(es, now)))
  {
    LiveOfUnique(es, now);
    UnexpiredHas(es, now, e);
    var live := Live(es, now);
    var i :| 0 <= i < |live| && live[i] == e;
    assert Ids(Notifs(live))[i] == e.notif.msgId;
  }

  lemma {:induction false} UnexpiredHas(es: seq<Entry>, now: int, e: Entry)
    requires e in es && !Expired(e, now)
    ensures e in Unexpired(es, now)
  {
    if e != es[0] {
      assert es == [es[0]] + es[1..];
      UnexpiredHas(es[1..], now, e);
    }
  }

  lemma {:induction false} NextWakes(s: State, sid: nat, d: string)
    requires KeysInv(s) && Enabled(s, Next(sid)) && Online(TakeNext(s, sid), d)
    requires Online(s, d) ==> Awake(s, d)
    ensures Awake(TakeNext(s, sid), d)
  {
    hide Live, NextPart;
    var t, c := TakeNext(s, sid), OwnChannel(d);
    if s.registry[d] == sid {
      var q := s.sessions[sid].queue;
      assert q == [q[0]] + q[1..];
      if q[0] == UnicastExchange(c) {
        forall e | e in Entries(t, c) && !Expired(e, t.now)
          ensures Covered(t, t.sessions[sid], c, e.notif.msgId)
        {
          SnapshotHasAll(Entries(s, c), s.now, e);
        }
      } else {
        StaysAwake(s, t, d);
      }
    } else {
      StaysAwake(s, t, d);
    }
  }

  lemma {:induction false} AckWakes(s: State, sid: nat, d: string)
    requires Enabled(s, Acked(sid)) && Online(s, d) && Awake(s, d)
    ensures Awake(Acknowledge(s, sid), d)
  {
    hide NextPart, WithoutIds;
    var t, c := Acknowledge(s, sid), OwnChannel(d);
    var Busy(chanId, part, rest) := s.sessions[sid].busy.value;
    WithoutIdsSubset(Entries(s, chanId), IdSet(part));
    if s.registry[d] == sid && chanId == c {
      forall e | e in Entries(t, c) && !Expired(e, t.now)
        ensures Covered(t, t.sessions[sid], c, e.notif.msgId)
      {
        var id := e.notif.msgId;
        assert Covered(s, s.sessions[sid], c, id);
        if id in Ids(part + rest) {
          StillToCome(part, rest, id);
        }
      }
    } else {
      StaysAwake(s, t, d);
    }
  }

  lemma {:induction false} StillToCome(part: seq<Notification>, rest: seq<Notification>, id: string)
    requires id in Ids(part + rest) && id !in IdSet(part)
    ensures id in Ids(rest)
  {
    var i :| 0 <= i < |part + rest| && Ids(part + rest)[i] == id;
    assert forall j :: 0 <= j < |part| ==> part[j] in part;
    assert Ids(rest)[i - |part|] == id;
  }

  lemma {:induction false} StepWakes(s: State, step: Step, d: string)
    requires Inv(s) && KeysInv(s) && AllAwake(s) && Enabled(s, step)
    requires Online(Do(s, step), d) && ':' !in d
    ensures Awake(Do(s, step), d)
  {
    hide Agent, Deliver, TakeNext, Acknowledge, Covered, Live, Unmatched, AllAwake;
    match step
    case AgentSession => SoFarAwake(s, d); AgentWakes(s, d);
    case AgentDelivery => SoFarAwake(s, d); DeliverWakes(s, d);
    case Next(sid) => SoFarAwake(s, d); NextWakes(s, sid, d);
    case Acked(sid) => StillOnline(s, sid, d); SoFarAwake(s, d); AckWakes(s, sid, d);
    case Scrub(c, appId, replaceTag) => SoFarAwake(s, d); ScrubWakes(s, c, appId, replaceTag, d);
    case Append(_, _, _) => SoFarAwake(s, d); AppendWakes(s, step, d);
    case Request(i) => SoFarAwake(s, d); RequestWakes(s, i, d);
    case FeedPending(sid, behind) => SoFarAwake(s, d); FeedWakes(s, sid, behind, d);
    case _ => SoFarAwake(s, d); OtherWakes(s, step, d);
  }

  lemma {:induction false} SoFarAwake(s: State, d: string)
    requires AllAwake(s) && ':' !in d
    ensures Online(s, d) ==> Awake(s, d)
  {
  }

  lemma {:induction false} StillOnline(s: State, sid: nat, d: string)
    requires Enabled(s, Acked(sid)) && Online(Acknowledge(s, sid), d)
    ensures Online(s, d)
  {
  }

  lemma {:induction false} OtherWakes(s: State, step: Step, d: string)
    requires Inv(s) && Enabled(s, step) && Online(Do(s, step), d)
    requires step.Tick? || step.Broadcast? || step.Join? || step.Break? || step.Leave?
    requires Online(s, d) ==> Awake(s, d)
    ensures Awake(Do(s, step), d)
  {
    hide PlaceInv, LatestInv, QueueInv;
    var t := Do(s, step);
    assert t.sessions[s.registry[d]] == s.sessions[s.registry[d]];
    StaysAwake(s, t, d);
  }

  lemma {:induction false} RunStep(run: seq<State>, steps: seq<Step>, i: nat)
    requires IsRun(run, steps) && i < |steps|
    ensures Enabled(run[i], steps[i]) && run[i + 1] == Do(run[i], steps[i])
  {
  }

  // ----- Theorems about runs -------------------------------------------------------------------

  lemma {:induction false} RunKeeps(run: seq<State>, steps: seq<Step>, i: nat)
    requires IsRun(run, steps) && i < |run|
    ensures Inv(run[i])
    decreases i
  {
    if i > 0 {
      RunKeeps(run, steps, i - 1);
      assert run[i] == Do(run[i - 1], steps[i - 1]);
      hide Do, Inv, Enabled;
      StepKeeps(run[i - 1], steps[i - 1]);
    }
  }

  /** The registry holds the session of a device that was registered last, until that session itself
      unregisters: what another session does never takes it out. */
  lemma {:induction false} RegistryHoldsLatest(run: seq<State>, steps: seq<Step>, i: nat, d: string)
    requires IsRun(run, steps) && i < |run|
    ensures var s := run[i];
            && (d in s.registry ==> d in s.latest && s.registry[d] == s.latest[d])
            && (d in s.latest && d !in s.registry ==> s.latest[d] in s.removed && At(s, s.latest[d], Left))
  {
    RunKeeps(run, steps, i);
    var s := run[i];
    if d in s.latest && d !in s.registry {
      assert PlaceInv(s, s.latest[d]);
    }
  }

  /** Every session that was registered and is not the latest of its device was kicked exactly once,
      unless it left the registry by itself; the latest was never kicked, nor one that so left. */
  lemma {:induction false} KickedExactlyOnce(run: seq<State>, steps: seq<Step>, i: nat, sid: nat)
    requires IsRun(run, steps) && i < |run| && sid in run[i].sessions && run[i].sessions[sid].stage != Joining
    ensures var s := run[i];
            multiset(s.kicked)[sid] == if Registered(s, sid) || sid in s.removed then 0 else 1
    ensures run[i].sessions[sid].deviceId in run[i].latest
  {
    RunKeeps(run, steps, i);
    assert PlaceInv(run[i], sid);
    DistinctCount(run[i].kicked, sid);
  }

  lemma {:induction false} DistinctCount(q: seq<nat>, x: nat)
    requires Distinct(q)
    ensures multiset(q)[x] == if x in q then 1 else 0
  {
    if q != [] {
      assert q == [q[0]] + q[1..];
      DistinctCount(q[1..], x);
    }
  }

  lemma {:induction false} StepWakesAll(s: State, step: Step)
    requires Inv(s) && KeysInv(s) && AllAwake(s) && Enabled(s, step)
    ensures AllAwake(Do(s, step))
  {
    hide Do, Inv, Enabled, KeysInv, AllAwake, Awake, Online;
    forall d | Online(Do(s, step), d) && ':' !in d
      ensures Awake(Do(s, step), d)
    {
      StepWakes(s, step, d);
    }
    AllAwakeFrom(Do(s, step));
  }

  lemma {:induction false} WakesAlong(run: seq<State>, steps: seq<Step>, i: nat)
    requires IsGuardedRun(run, steps) && i < |run|
    ensures KeysInv(run[i]) && AllAwake(run[i])
    decreases i
  {
    hide Do, Inv, Enabled, Guarded, KeysInv, AllAwake;
    if i == 0 {
      InitAwake();
    } else {
      var s, step := run[i - 1], steps[i - 1];
      WakesAlong(run, steps, i - 1);
      RunKeeps(run, steps, i - 1);
      assert run[i] == Do(s, step) && Guarded(s, step);
      KeysKeep(s, step);
      StepWakesAll(s, step);
    }
  }

  lemma {:induction false} InitAwake()
    ensures KeysInv(INIT) && AllAwake(INIT)
  {
  }

  lemma {:induction false} AllAwakeFrom(t: State)
    requires forall d :: Online(t, d) && ':' !in d ==> Awake(t, d)
    ensures AllAwake(t)
  {
  }

  /** No wake-up is lost: an entry that has not expired in the channel of a device with a session in
      the registry is on its way to that session. */
  lemma {:induction false} NoLostWakeUp(run: seq<State>, steps: seq<Step>, i: nat, d: string, e: Entry)
    requires IsGuardedRun(run, steps) && i < |run|
    requires Online(run[i], d) && ':' !in d
    requires e in Entries(run[i], OwnChannel(d)) && !Expired(e, run[i].now)
    ensures Covered(run[i], run[i].sessions[run[i].registry[d]], OwnChannel(d), e.notif.msgId)
  {
    WakesAlong(run, steps, i);
    assert Awake(run[i], d);
  }

  /** When nothing is left to do for a device, nothing in its channel is visible any more. */
  lemma {:induction false} QuietMeansDelivered(run: seq<State>, steps: seq<Step>, i: nat, d: string)
    requires IsGuardedRun(run, steps) && i < |run|
    requires Online(run[i], d) && ':' !in d && run[i].requests == [] && run[i].deliveryCh == []
    requires var sess := run[i].sessions[run[i].registry[d]];
             sess.stage == Running && sess.queue == [] && sess.busy == None
    ensures Live(Entries(run[i], OwnChannel(d)), run[i].now) == []
  {
    var s := run[i];
    var live := Live(Entries(s, OwnChannel(d)), s.now);
    LiveAreUnique(Entries(s, OwnChannel(d)), s.now);
    if live != [] {
      assert live[0] in live;
      NoLostWakeUp(run, steps, i, d, live[0]);
    }
  }

  // ----- Joining and leaving -------------------------------------------------------------------

  /** A session that joins, or one that left and is still in the registry, is on its way to the agent. */
  ghost predicate OnItsWay(s: State, sid: nat)
    requires sid in s.sessions
  {
    s.sessions[sid].stage == Joining || (s.sessions[sid].stage == Left && Registered(s, sid)) ==> sid in s.sessionCh
  }

  lemma {:induction false} AgentNotices(s: State, sid: nat)
    requires Inv(s) && Enabled(s, AgentSession) && sid in s.sessions && OnItsWay(s, sid)
    ensures sid in Agent(s).sessions && OnItsWay(Agent(s), sid)
  {
    hide PlaceInv, LatestInv;
    var q := s.sessionCh;
    assert q == [q[0]] + q[1..];
    assert At(s, q[0], Joining) || At(s, q[0], Left);
    assert RegistryInv(s);
  }

  /** As long as the session does not leave. */
  lemma {:induction false} StaysOnItsWay(s: State, t: State, sid: nat)
    requires sid in s.sessions && sid in t.sessions && OnItsWay(s, sid)
    requires t.registry == s.registry && t.sessions[sid].deviceId == s.sessions[sid].deviceId
    requires t.sessions[sid].stage == s.sessions[sid].stage || t.sessions[sid].stage in {Admitted, Running, Over}
    requires forall x :: x in s.sessionCh ==> x in t.sessionCh
    ensures OnItsWay(t, sid)
  {
  }

  lemma {:induction false} StepNotices(s: State, step: Step, sid: nat)
    requires Inv(s) && Enabled(s, step) && sid in Do(s, step).sessions
    requires sid in s.sessions ==> OnItsWay(s, sid)
    ensures OnItsWay(Do(s, step), sid)
  {
    hide Inv, OnItsWay;
    match step
    case AgentSession => AgentSessions(s); AgentNotices(s, sid);
    case Leave(other) => LeaveNotices(s, other, sid);
    case Join(other, deviceId) => JoinNotices(s, other, deviceId, sid);
    case _ => OtherNotices(s, step, sid);
  }

  lemma {:induction false} JoinNotices(s: State, other: nat, deviceId: string, sid: nat)
    requires Enabled(s, Join(other, deviceId)) && sid in Do(s, Join(other, deviceId)).sessions
    requires sid in s.sessions ==> OnItsWay(s, sid)
    ensures OnItsWay(Do(s, Join(other, deviceId)), sid)
  {
    assert Do(s, Join(other, deviceId)).sessionCh[|s.sessionCh|] == other;
  }

  lemma {:induction false} LeaveNotices(s: State, other: nat, sid: nat)
    requires Enabled(s, Leave(other)) && sid in s.sessions && OnItsWay(s, sid)
    ensures OnItsWay(Do(s, Leave(other)), sid)
  {
    assert Do(s, Leave(other)).sessionCh[|s.sessionCh|] == other;
  }

  lemma {:induction false} OtherNotices(s: State, step: Step, sid: nat)
    requires Enabled(s, step) && !step.AgentSession? && !step.Join? && !step.Leave?
    requires sid in s.sessions && OnItsWay(s, sid)
    ensures OnItsWay(Do(s, step), sid)
  {
    hide Target, Live, Unmatched, WithoutIds, SendNext, Pending, OnItsWay;
    if step.AgentDelivery? {
      DeliverSessions(s);
    }
    StaysOnItsWay(s, Do(s, step), sid);
  }

  /** On every run, no session waits to be registered, nor stays in the registry after it left, without being
      on its way to the agent. */
  lemma {:induction false} AgentIsTold(run: seq<State>, steps: seq<Step>, i: nat, sid: nat)
    requires IsRun(run, steps) && i < |run| && sid in run[i].sessions
    ensures OnItsWay(run[i], sid)
    decreases i
  {
    if i > 0 {
      assert i - 1 < |steps|;
      hide *;
      RunKeeps(run, steps, i - 1);
      RunStep(run, steps, i - 1);
      if sid in run[i - 1].sessions {
        AgentIsTold(run, steps, i - 1, sid);
      }
      StepNotices(run[i - 1], steps[i - 1], sid);
    }
  }

  /** A session that breaks off leaves, and once the agent has taken it, it is not in the registry. */
  lemma {:induction false} BreaksOff(s: State, sid: nat)
    requires Inv(s) && Enabled(s, Break(sid)) && s.sessionCh == []
    ensures Enabled(Do(s, Break(sid)), Leave(sid))
    ensures var t := Do(Do(s, Break(sid)), Leave(sid));
            Enabled(t, AgentSession) && !Registered(Do(t, AgentSession), sid)
  {
    hide PlaceInv, LatestInv, QueueInv;
    var t := Do(Do(s, Break(sid)), Leave(sid));
    assert t.sessionCh == [sid];
    assert RegistryInv(s);
  }

  // ----- Broadcasts ----------------------------------------------------------------------------

  ghost predicate InQueue(s: State, sid: nat, x: Exchange) {
    sid in s.sessions && x in s.sessions[sid].queue
  }

  /** Between `run[i]` and `run[j]` the session takes this exchange. */
  ghost predicate Taken(run: seq<State>, steps: seq<Step>, i: nat, j: nat, sid: nat, x: Exchange)
    requires i <= j < |run| && |run| == |steps| + 1
  {
    exists k :: i <= k < j && steps[k] == Next(sid) && Enabled(run[k], Next(sid)) && run[k].sessions[sid].queue[0] == x
  }

  lemma {:induction false} TakesOrKeeps(s: State, other: nat, sid: nat, x: Exchange)
    requires Enabled(s, Next(other)) && InQueue(s, sid, x)
    ensures InQueue(TakeNext(s, other), sid, x) || (other == sid && s.sessions[sid].queue[0] == x)
  {
    hide SendNext, Live;
    var q := s.sessions[other].queue;
    assert q == [q[0]] + q[1..];
  }

  lemma {:induction false} AgentKeepsQueue(s: State, sid: nat, x: Exchange)
    requires Enabled(s, AgentSession) && InQueue(s, sid, x)
    ensures InQueue(Agent(s), sid, x)
  {
  }

  lemma {:induction false} StaysQueued(s: State, step: Step, sid: nat, x: Exchange)
    requires Enabled(s, step) && InQueue(s, sid, x)
    ensures InQueue(Do(s, step), sid, x) || (step == Next(sid) && s.sessions[sid].queue[0] == x)
  {
    hide Live, Unmatched, Agent, Deliver, TakeNext, Pending, SendNext, WithoutIds;
    match step
    case AgentSession => AgentKeepsQueue(s, sid, x);
    case AgentDelivery => var _ := DeliverQueue(s, sid);
    case Next(other) => TakesOrKeeps(s, other, sid, x);
    case _ =>
  }

  lemma {:induction false} TakenLater(run: seq<State>, steps: seq<Step>, i: nat, j: nat, sid: nat, x: Exchange)
    requires i <= j < |steps| && |run| == |steps| + 1
    requires || Taken(run, steps, i, j, sid, x)
             || (steps[j] == Next(sid) && Enabled(run[j], Next(sid)) && run[j].sessions[sid].queue[0] == x)
    ensures Taken(run, steps, i, j + 1, sid, x)
  {
  }

  /** What is in the queue of a session stays there until the session takes it. */
  lemma {:induction false} QueuedUntilTaken(run: seq<State>, steps: seq<Step>, i: nat, j: nat, sid: nat, x: Exchange)
    requires IsRun(run, steps) && i <= j < |run| && InQueue(run[i], sid, x)
    ensures InQueue(run[j], sid, x) || Taken(run, steps, i, j, sid, x)
    decreases j
  {
    if i < j {
      QueuedUntilTaken(run, steps, i, j - 1, sid, x);
      StillQueuedOrTaken(run, steps, i, j - 1, sid, x);
    }
    hide *;
  }

  lemma {:induction false} StillQueuedOrTaken(run: seq<State>, steps: seq<Step>, i: nat, j: nat, sid: nat, x: Exchange)
    requires IsRun(run, steps) && i <= j < |steps|
    requires InQueue(run[j], sid, x) || Taken(run, steps, i, j, sid, x)
    ensures InQueue(run[j + 1], sid, x) || Taken(run, steps, i, j + 1, sid, x)
  {
    RunStep(run, steps, j);
    hide InQueue, Taken, Enabled, Do;
    if Taken(run, steps, i, j, sid, x) {
      TakenLater(run, steps, i, j, sid, x);
    } else {
      StaysQueued(run[j], steps[j], sid, x);
      if !InQueue(run[j + 1], sid, x) {
        TakenLater(run, steps, i, j, sid, x);
      }
    }
  }

  lemma {:induction false} DeliveryReaches(s: State, step: Step, c: ChannelId, sid: nat)
    requires Enabled(s, step) && BroadcastDelivery(c) in s.deliveryCh && Registered(s, sid)
    ensures BroadcastDelivery(c) in Do(s, step).deliveryCh || InQueue(Do(s, step), sid, BroadcastExchange(c))
  {
    hide Target, Live, Unmatched, WithoutIds, SendNext;
    if step == AgentDelivery {
      var q := s.deliveryCh;
      assert q == [q[0]] + q[1..];
      if q[0] == BroadcastDelivery(c) {
        assert s.sessions[sid].deviceId in s.registry && sid in s.registry.Values;
        assert Do(s, step).sessions[sid].queue[|s.sessions[sid].queue|] == BroadcastExchange(c);
      }
    }
  }

  lemma {:induction false} IsAskedFor(s: State, c: ChannelId)
    ensures BroadcastDelivery(c) in Do(s, Step.Broadcast(c)).deliveryCh
  {
    assert Do(s, Step.Broadcast(c)).deliveryCh[|s.deliveryCh|] == BroadcastDelivery(c);
  }

  /** The broadcast is still to be delivered, or in the queue of the session, or the session has taken it. */
  ghost predicate Brought(run: seq<State>, steps: seq<Step>, i: nat, j: nat, c: ChannelId, sid: nat)
    requires i <= j < |run| && |run| == |steps| + 1
  {
    || BroadcastDelivery(c) in run[j].deliveryCh
    || InQueue(run[j], sid, BroadcastExchange(c))
    || Taken(run, steps, i, j, sid, BroadcastExchange(c))
  }

  lemma {:induction false} StaysBrought(run: seq<State>, steps: seq<Step>, i: nat, j: nat, c: ChannelId, sid: nat)
    requires IsRun(run, steps) && i <= j < |steps| && Registered(run[j], sid)
    requires Brought(run, steps, i, j, c, sid)
    ensures Brought(run, steps, i, j + 1, c, sid)
  {
    RunStep(run, steps, j);
    var x := BroadcastExchange(c);
    if InQueue(run[j], sid, x) || Taken(run, steps, i, j, sid, x) {
      StillQueuedOrTaken(run, steps, i, j, sid, x);
    } else {
      DeliveryReaches(run[j], steps[j], c, sid);
    }
    hide *;
  }

  /** A broadcast that was asked for is brought to every session that is registered from then on. */
  lemma {:induction false} BroadcastIsBrought(run: seq<State>, steps: seq<Step>, i: nat, j: nat, c: ChannelId, sid: nat)
    requires IsRun(run, steps) && i < j < |run| && steps[i] == Step.Broadcast(c)
    requires forall k :: i <= k <= j ==> Registered(run[k], sid)
    ensures Brought(run, steps, i, j, c, sid)
    decreases j
  {
    if i == j - 1 {
      RunStep(run, steps, i);
      IsAskedFor(run[i], c);
    } else {
      BroadcastIsBrought(run, steps, i, j - 1, c, sid);
      StaysBrought(run, steps, i, j - 1, c, sid);
    }
    hide *;
  }

  /** When the agent takes a broadcast, it goes to the registered sessions and to no others. */
  lemma {:induction false} BroadcastGoesTo(run: seq<State>, steps: seq<Step>, i: nat, c: ChannelId, sid: nat)
    requires IsRun(run, steps) && i < |steps| && steps[i] == AgentDelivery && sid in run[i].sessions
    requires run[i].deliveryCh != [] && run[i].deliveryCh[0] == BroadcastDelivery(c)
    ensures sid in run[i + 1].sessions
    ensures run[i + 1].sessions[sid].queue ==
            run[i].sessions[sid].queue + if Registered(run[i], sid) then [BroadcastExchange(c)] else []
  {
    RunStep(run, steps, i);
    RunKeeps(run, steps, i);
    hide PlaceInv, LatestInv, QueueInv, IsRun;
    var s := run[i];
    assert RegistryInv(s);
    if Registered(s, sid) {
      assert s.sessions[sid].deviceId in s.registry && sid in s.registry.Values;
    }
    if sid in s.registry.Values {
      var d :| d in s.registry && s.registry[d] == sid;
    }
  }

  /** A session is fed the exchange of its own channel, and before it, if it is behind and only then, one of
      the system channel.  These stay in its queue until it takes them. */
  lemma {:induction false} PendingIsFed(run: seq<State>, steps: seq<Step>, i: nat, j: nat, sid: nat, behind: bool)
    requires IsRun(run, steps) && i < j < |run| && steps[i] == FeedPending(sid, behind)
    ensures sid in run[i].sessions && sid in run[i + 1].sessions
    ensures var before, after := run[i].sessions[sid], run[i + 1].sessions[sid];
            var own := UnicastExchange(OwnChannel(before.deviceId));
            after.queue == before.queue + (if behind then [BroadcastExchange(SYSTEM_CHANNEL), own] else [own])
    ensures var own := UnicastExchange(OwnChannel(run[i].sessions[sid].deviceId));
            InQueue(run[j], sid, own) || Taken(run, steps, i + 1, j, sid, own)
    ensures behind ==> || InQueue(run[j], sid, BroadcastExchange(SYSTEM_CHANNEL))
                       || Taken(run, steps, i + 1, j, sid, BroadcastExchange(SYSTEM_CHANNEL))
  {
    var before := run[i].sessions[sid];
    assert run[i + 1] == Do(run[i], steps[i]);
    var q := run[i + 1].sessions[sid].queue;
    var own := UnicastExchange(OwnChannel(before.deviceId));
    hide Do, OwnChannel;
    assert q[|q| - 1] == own;
    QueuedUntilTaken(run, steps, i + 1, j, sid, own);
    if behind {
      assert q[|before.queue|] == BroadcastExchange(SYSTEM_CHANNEL);
      QueuedUntilTaken(run, steps, i + 1, j, sid, BroadcastExchange(SYSTEM_CHANNEL));
    }
  }

  // ----- Kicks ---------------------------------------------------------------------------------

  ghost function Kicks(sess: Sess): (r: nat) {
    multiset(sess.queue)[Kick]
  }

  /** A kick that was sent is in the queue until the session ends, once. */
  ghost predicate KickInv(s: State, sid: nat)
    requires sid in s.sessions
  {
    var sess := s.sessions[sid];
    && (sid !in s.kicked ==> Kicks(sess) == 0)
    && Kicks(sess) <= 1
    && (sid in s.kicked && (sess.stage == Admitted || sess.stage == Running) ==> Kicks(sess) == 1)
  }

  lemma {:induction false} PopKicks(q: seq<Exchange>)
    requires q != []
    ensures multiset(q)[Kick] == multiset(q[1..])[Kick] + if q[0] == Kick then 1 else 0
  {
    assert q == [q[0]] + q[1..];
  }

  lemma {:induction false} AgentKicks(s: State, sid: nat)
    requires Inv(s) && Enabled(s, AgentSession) && sid in s.sessions && KickInv(s, sid)
    ensures KickInv(Agent(s), sid)
  {
    hide QueueInv, LatestInv, Distinct;
    var first := s.sessionCh[0];
    assert PlaceInv(s, sid) && PlaceInv(s, first);
    if s.sessions[first].deviceId in s.registry {
      assert PlaceInv(s, s.registry[s.sessions[first].deviceId]);
    }
  }

  lemma {:induction false} DeliverQueue(s: State, sid: nat) returns (x: Exchange)
    requires Enabled(s, AgentDelivery) && sid in s.sessions
    ensures x != Kick && sid in Deliver(s).sessions && Deliver(s).kicked == s.kicked
    ensures var sess := s.sessions[sid];
            || Deliver(s).sessions[sid] == sess
            || Deliver(s).sessions[sid] == sess.(queue := sess.queue + [x])
  {
    hide Target;
    x := if s.deliveryCh[0].UnicastDelivery? then UnicastExchange(s.deliveryCh[0].chanId)
         else BroadcastExchange(s.deliveryCh[0].chanId);
  }

  lemma {:induction false} DeliverKicks(s: State, sid: nat)
    requires Enabled(s, AgentDelivery) && sid in s.sessions && KickInv(s, sid)
    ensures sid in Deliver(s).sessions && KickInv(Deliver(s), sid)
  {
    var x := DeliverQueue(s, sid);
    hide Deliver;
  }

  lemma {:induction false} PendingKicks(q: seq<Exchange>, sess: Sess, behind: bool)
    ensures multiset(q + Pending(sess, behind))[Kick] == multiset(q)[Kick]
  {
    var own := UnicastExchange(OwnChannel(sess.deviceId));
    hide OwnChannel;
    if behind {
      var x := BroadcastExchange(SYSTEM_CHANNEL);
      assert q + Pending(sess, behind) == q + [x] + [own];
    } else {
      assert Pending(sess, behind) == [own];
    }
  }

  lemma {:induction false} FeedKicks(s: State, sid: nat, behind: bool)
    requires Enabled(s, FeedPending(sid, behind)) && KickInv(s, sid)
    ensures KickInv(Do(s, FeedPending(sid, behind)), sid)
  {
    hide Pending;
    PendingKicks(s.sessions[sid].queue, s.sessions[sid], behind);
  }

  lemma {:induction false} NextKicks(s: State, sid: nat, other: nat)
    requires Enabled(s, Next(sid)) && other in s.sessions && KickInv(s, other)
    ensures KickInv(TakeNext(s, sid), other)
  {
    hide SendNext;
    PopKicks(s.sessions[sid].queue);
  }

  lemma {:induction false} StepKicks(s: State, step: Step, sid: nat)
    requires Inv(s) && Enabled(s, step) && sid in Do(s, step).sessions
    requires sid in s.sessions ==> KickInv(s, sid)
    ensures KickInv(Do(s, step), sid)
  {
    hide Agent, Deliver, TakeNext, SendNext, Live, Unmatched, PlaceInv, RegistryInv, LatestInv, QueueInv;
    match step
    case AgentSession => AgentSessions(s); AgentKicks(s, sid);
    case AgentDelivery => DeliverSessions(s); DeliverKicks(s, sid);
    case Next(other) => NextSessions(s, other); NextKicks(s, other, sid);
    case FeedPending(other, behind) => if other == sid { FeedKicks(s, sid, behind); }
    case _ =>
  }

  lemma {:induction false} AgentSessions(s: State)
    requires Enabled(s, AgentSession)
    ensures Agent(s).sessions.Keys == s.sessions.Keys
  {
  }

  lemma {:induction false} DeliverSessions(s: State)
    requires Enabled(s, AgentDelivery)
    ensures Deliver(s).sessions.Keys == s.sessions.Keys
  {
  }

  lemma {:induction false} NextSessions(s: State, sid: nat)
    requires Enabled(s, Next(sid))
    ensures TakeNext(s, sid).sessions.Keys == s.sessions.Keys
  {
  }

  /** A session that was kicked and has not ended has exactly one kick in its queue, and one that was
      not kicked has none. */
  lemma {:induction false} KickIsQueuedOnce(run: seq<State>, steps: seq<Step>, i: nat, sid: nat)
    requires IsRun(run, steps) && i < |run| && sid in run[i].sessions
    ensures KickInv(run[i], sid)
    decreases i
  {
    if i > 0 {
      var s, step := run[i - 1], steps[i - 1];
      RunKeeps(run, steps, i - 1);
      assert run[i] == Do(s, step);
      hide Do, Inv, Enabled, KickInv;
      if sid in s.sessions {
        KickIsQueuedOnce(run, steps, i - 1, sid);
      }
      StepKicks(s, step, sid);
    }
  }

  // ----- Runs that lose a wake-up --------------------------------------------------------------

  ghost predicate Reachable(t: State) {
    exists run, steps :: IsRun(run, steps) && run[|steps|] == t
  }

  ghost predicate GuardedReachable(t: State) {
    exists run, steps :: IsGuardedRun(run, steps) && run[|steps|] == t
  }

  lemma {:induction false} InitReachable()
    ensures Reachable(INIT) && GuardedReachable(INIT)
  {
    var steps: seq<Step> := [];
    assert IsGuardedRun([INIT], steps) && [INIT][|steps|] == INIT;
  }

  lemma {:induction false} StepReachable(s: State, step: Step)
    requires Reachable(s) && Enabled(s, step)
    ensures Reachable(Do(s, step))
  {
    var run, steps :| IsRun(run, steps) && run[|steps|] == s;
    var run', steps' := run + [Do(s, step)], steps + [step];
    hide Do, Enabled;
    assert IsRun(run', steps');
    assert run'[|steps'|] == Do(s, step);
  }

  lemma {:induction false} GuardedStepReachable(s: State, step: Step)
    requires GuardedReachable(s) && Enabled(s, step) && Guarded(s, step)
    ensures GuardedReachable(Do(s, step))
  {
    var run, steps :| IsGuardedRun(run, steps) && run[|steps|] == s;
    var run', steps' := run + [Do(s, step)], steps + [step];
    hide Do, Enabled, Guarded;
    assert IsRun(run', steps');
    assert IsGuardedRun(run', steps');
    assert run'[|steps'|] == Do(s, step);
  }

  /** A device whose only session was fed and is idle, and whose own channel holds the entries. */
  function IdleDevice(d: string, es: seq<Entry>): (s: State) {
    OfflineDevice(d, es).(registry := map[d := 0], latest := map[d := 0],
                          sessions := map[0 := Sess(d, Running, [], None)])
  }

  /** A device that never connected. */
  function OfflineDevice(d: string, es: seq<Entry>): (s: State) {
    INIT.(store := map[OwnChannel(d) := es])
  }

  /** An entry is stored, asked for, and delivered to nobody. */
  lemma {:induction false} StoredForNobody(s: State, d: string, e: Entry) returns (t: State)
    requires s.requests == [] && s.deliveryCh == [] && Target(s.registry, OwnChannel(d)).None?
    requires OwnChannel(d) in s.store
    ensures t == s.(store := s.store[OwnChannel(d) := s.store[OwnChannel(d)] + [e]])
    ensures Reachable(s) ==> Reachable(t)
    ensures GuardedReachable(s) && Guarded(s, Append(d, d, e)) ==> GuardedReachable(t)
  {
    hide Reachable, GuardedReachable, UnicastInternalChannelId, Target, KeyUnique;
    var c := OwnChannel(d);
    var s1 := s.(store := s.store[c := s.store[c] + [e]], requests := [c]);
    assert s.requests + [c] == [c];
    assert Do(s, Append(d, d, e)) == s1;
    var s2 := s1.(requests := [], deliveryCh := [UnicastDelivery(c)]);
    assert [c][..0] + [c][1..] == [] && s1.deliveryCh + [UnicastDelivery(c)] == [UnicastDelivery(c)];
    assert Do(s1, Request(0)) == s2;
    t := s2.(deliveryCh := []);
    assert [UnicastDelivery(c)][1..] == [];
    assert Do(s2, AgentDelivery) == t;
    if Reachable(s) {
      StepReachable(s, Append(d, d, e));
      StepReachable(s1, Request(0));
      StepReachable(s2, AgentDelivery);
    }
    if GuardedReachable(s) && Guarded(s, Append(d, d, e)) {
      GuardedStepReachable(s, Append(d, d, e));
      GuardedStepReachable(s1, Request(0));
      GuardedStepReachable(s2, AgentDelivery);
    }
  }

  /** An offline device, its session on the way to the agent, registered, and fed. */
  function Joined(d: string, es: seq<Entry>): (s: State) {
    OfflineDevice(d, es).(sessionCh := [0], sessions := map[0 := Sess(d, Joining, [], None)])
  }

  function AdmittedDevice(d: string, es: seq<Entry>): (s: State) {
    IdleDevice(d, es).(sessions := map[0 := Sess(d, Admitted, [], None)])
  }

  function FedDevice(d: string, es: seq<Entry>): (s: State) {
    IdleDevice(d, es).(sessions := map[0 := Sess(d, Running, [UnicastExchange(OwnChannel(d))], None)])
  }

  lemma {:induction false} JoinsAndIsAdmitted(d: string, es: seq<Entry>)
    ensures Do(OfflineDevice(d, es), Join(0, d)) == Joined(d, es)
    ensures Enabled(Joined(d, es), AgentSession) && Do(Joined(d, es), AgentSession) == AdmittedDevice(d, es)
  {
    hide UnicastInternalChannelId;
    var none: seq<nat> := [];
    assert none + [0] == [0] && [0][1..] == none && none + [] == none;
  }

  lemma {:induction false} IsFed(d: string, es: seq<Entry>)
    ensures Enabled(AdmittedDevice(d, es), FeedPending(0, false))
    ensures Do(AdmittedDevice(d, es), FeedPending(0, false)) == FedDevice(d, es)
  {
    hide UnicastInternalChannelId;
    var s := AdmittedDevice(d, es);
    assert s.sessions[0].queue + Pending(s.sessions[0], false) == [UnicastExchange(OwnChannel(d))];
  }

  /** A session of an offline device registers and is fed. */
  lemma {:induction false} Connects(d: string, es: seq<Entry>)
    ensures Reachable(OfflineDevice(d, es)) ==> Reachable(FedDevice(d, es))
    ensures GuardedReachable(OfflineDevice(d, es)) ==> GuardedReachable(FedDevice(d, es))
  {
    JoinsAndIsAdmitted(d, es);
    IsFed(d, es);
    var s, s1, s2 := OfflineDevice(d, es), Joined(d, es), AdmittedDevice(d, es);
    assert Enabled(s, Join(0, d));
    hide Reachable, GuardedReachable, Do, Enabled, Joined, AdmittedDevice, FedDevice, OfflineDevice;
    if Reachable(s) {
      StepReachable(s, Join(0, d));
      StepReachable(s1, AgentSession);
      StepReachable(s2, FeedPending(0, false));
    }
    if GuardedReachable(s) {
      GuardedStepReachable(s, Join(0, d));
      GuardedStepReachable(s1, AgentSession);
      GuardedStepReachable(s2, FeedPending(0, false));
    }
  }

  lemma {:induction false} OfflineReachable(d: string)
    ensures Reachable(OfflineDevice(d, [])) && GuardedReachable(OfflineDevice(d, []))
  {
    hide Reachable, GuardedReachable;
    InitReachable();
    StepReachable(INIT, Scrub(OwnChannel(d), "", ""));
    GuardedStepReachable(INIT, Scrub(OwnChannel(d), "", ""));
    assert Do(INIT, Scrub(OwnChannel(d), "", "")) == OfflineDevice(d, []);
  }

  /** Without a guard a wake-up can be lost: of two entries of one key only the later one is sent, and
      once it is dropped nothing brings the earlier one to the session. */
  lemma {:induction false} SupersededSleeps(d: string, x: Entry, e: Entry)
    requires ':' !in d && SameKey(x, e) && !Expired(x, 0) && !Expired(e, 0)
    requires x.notif.msgId != e.notif.msgId && NotificationSize(e.notif) <= MAX_PAYLOAD_SIZE
    ensures exists t :: Reachable(t) && Online(t, d) && x in Live(Entries(t, OwnChannel(d)), t.now)
                        && !Covered(t, t.sessions[t.registry[d]], OwnChannel(d), x.notif.msgId)
  {
    hide Reachable, GuardedReachable, UnicastInternalChannelId;
    var s, own := OfflineDevice(d, []), OwnChannel(d);
    OfflineReachable(d);
    var s1 := StoredForNobody(s, d, x);
    assert [] + [x] == [x] && s.store[own := [x]] == map[own := [x]];
    assert s1 == OfflineDevice(d, [x]);
    var s2 := StoredForNobody(s1, d, e);
    assert [x] + [e] == [x, e] && s1.store[own := [x, e]] == map[own := [x, e]];
    assert s2 == OfflineDevice(d, [x, e]);
    Connects(d, [x, e]);
    var t := LaterIsDropped(d, x, e);
  }

  lemma {:induction false} TwoOfOneKey(x: Entry, e: Entry)
    requires SameKey(x, e) && !Expired(x, 0) && !Expired(e, 0) && x.notif.msgId != e.notif.msgId
    ensures Notifs(Live([x, e], 0)) == [e.notif] && WithoutIds([x, e], IdSet([e.notif])) == [x] && Live([x], 0) == [x]
  {
    assert [x, e][1..] == [e] && [e][1..] == [] && [x][1..] == [];
    assert Live([e], 0) == [e] && SameKey(x, [e][0]);
    assert Live([x, e], 0) == [e];
    assert IdSet([e.notif]) == {e.notif.msgId} && WithoutIds([e], IdSet([e.notif])) == [];
  }

  lemma {:induction false} LaterIsDropped(d: string, x: Entry, e: Entry) returns (t: State)
    requires SameKey(x, e) && !Expired(x, 0) && !Expired(e, 0) && x.notif.msgId != e.notif.msgId
    requires NotificationSize(e.notif) <= MAX_PAYLOAD_SIZE
    requires Reachable(FedDevice(d, [x, e]))
    ensures Reachable(t) && Online(t, d) && x in Live(Entries(t, OwnChannel(d)), t.now)
    ensures !Covered(t, t.sessions[t.registry[d]], OwnChannel(d), x.notif.msgId)
  {
    TwoOfOneKey(x, e);
    NextPartOfOne(e.notif);
    hide Reachable, GuardedReachable, UnicastInternalChannelId, Live, WithoutIds, NextPart, NotificationSize;
    var own, q := OwnChannel(d), [UnicastExchange(OwnChannel(d))];
    var s := FedDevice(d, [x, e]);
    var busy := Some(Busy(own, [e.notif], []));
    var s1 := IdleDevice(d, [x, e]).(sessions := map[0 := Sess(d, Running, [], busy)]);
    assert q[1..] == [];
    StepReachable(s, Next(0));
    assert Do(s, Next(0)) == s1;
    StepReachable(s1, Acked(0));
    t := IdleDevice(d, [x]);
    assert s1.store[own := [x]] == t.store;
    assert Do(s1, Acked(0)) == t;
  }

  /** A device with a colon in its id does not get a wake-up: the delivery of an entry stored in its own
      channel goes to another device, and nothing brings the entry to its idle session. */
  lemma {:induction false} ColonDeviceSleeps(d: string, e: Entry)
    requires ':' in d && !Expired(e, 0)
    ensures exists t :: GuardedReachable(t) && Online(t, d) && e in Entries(t, OwnChannel(d)) && !Expired(e, t.now)
                        && !Covered(t, t.sessions[t.registry[d]], OwnChannel(d), e.notif.msgId)
  {
    hide Reachable, GuardedReachable, UnicastInternalChannelId, UnicastUserAndDevice;
    var own, q := OwnChannel(d), [UnicastExchange(OwnChannel(d))];
    OfflineReachable(d);
    Connects(d, []);
    var s := FedDevice(d, []);
    assert q[1..] == [] && Notifs(Live([], 0)) == [];
    GuardedStepReachable(s, Next(0));
    var s1 := IdleDevice(d, []);
    assert Do(s, Next(0)) == s1;
    OwnChannelIff(d);
    var t := StoredForNobody(s1, d, e);
    assert [] + [e] == [e];
    assert Entries(t, own) == [e];
  }

  /** An exchange of another channel of the device can come before that of its own: the agent delivers
      it after it has registered the session and before the session is fed. */
  lemma {:induction false} OtherChannelFirst(u: string, d: string, e: Entry)
    requires ':' !in u && ':' !in d
    ensures exists t :: GuardedReachable(t) && Online(t, d) && t.registry[d] == 0 && t.sessions[0].queue ==
              [UnicastExchange(UnicastInternalChannelId(u, d)), UnicastExchange(OwnChannel(d))]
  {
    UserAndDeviceIff(u, d);
    hide GuardedReachable, Reachable, UnicastInternalChannelId, UnicastUserAndDevice;
    var c, own := UnicastInternalChannelId(u, d), OwnChannel(d);
    InitReachable();
    var none: seq<nat>, s0 := [], INIT.(store := map[c := [e]], requests := [c]);
    GuardedStepReachable(INIT, Append(u, d, e));
    assert INIT.requests + [c] == [c] && Entries(INIT, c) + [e] == [e];
    assert Do(INIT, Append(u, d, e)) == s0;
    GuardedStepReachable(s0, Request(0));
    var s1 := s0.(requests := [], deliveryCh := [UnicastDelivery(c)]);
    assert [c][..0] + [c][1..] == [] && s0.deliveryCh + [UnicastDelivery(c)] == [UnicastDelivery(c)];
    assert Do(s0, Request(0)) == s1;
    GuardedStepReachable(s1, Join(0, d));
    var s2 := s1.(sessionCh := [0], sessions := map[0 := Sess(d, Joining, [], None)]);
    assert none + [0] == [0] && [0][1..] == none && none + [] == none;
    assert Do(s1, Join(0, d)) == s2;
    GuardedStepReachable(s2, AgentSession);
    var s3 := s1.(registry := map[d := 0], latest := map[d := 0], sessions := map[0 := Sess(d, Admitted, [], None)]);
    assert Do(s2, AgentSession) == s3;
    OtherThenOwn(s3, c, d);
  }

  lemma {:induction false} OtherThenOwn(s: State, c: ChannelId, d: string)
    requires GuardedReachable(s) && s.deliveryCh == [UnicastDelivery(c)] && s.registry == map[d := 0]
    requires s.sessions == map[0 := Sess(d, Admitted, [], None)] && Target(s.registry, c) == Some(0)
    ensures exists t :: GuardedReachable(t) && Online(t, d) && t.registry[d] == 0
                        && t.sessions[0].queue == [UnicastExchange(c), UnicastExchange(OwnChannel(d))]
  {
    hide GuardedReachable, UnicastInternalChannelId, Target;
    var other, q := [UnicastExchange(c)], [UnicastExchange(c), UnicastExchange(OwnChannel(d))];
    GuardedStepReachable(s, AgentDelivery);
    var s1 := s.(deliveryCh := [], sessions := map[0 := Sess(d, Admitted, other, None)]);
    assert s.deliveryCh[1..] == [] && s.sessions[0].queue + [UnicastExchange(c)] == other;
    assert Do(s, AgentDelivery) == s1;
    GuardedStepReachable(s1, FeedPending(0, false));
    var t := s1.(sessions := map[0 := Sess(d, Running, q, None)]);
    assert other + Pending(s1.sessions[0], false) == q;
    assert Do(s1, FeedPending(0, false)) == t;
  }

  /** On every guarded run every unexpired entry of a device's own channel is covered while the device
      is online, if and only if its id has no colon. */
  lemma {:induction false} NoWakeUpIsLostIff(d: string)
    ensures (forall t, e ::
               GuardedReachable(t) && Online(t, d) && e in Entries(t, OwnChannel(d)) && !Expired(e, t.now) ==>
                 Covered(t, t.sessions[t.registry[d]], OwnChannel(d), e.notif.msgId)) <==> ':' !in d
  {
    if ':' in d {
      ColonDeviceSleeps(d, Entry(Notification("", "", ""), Metadata(0, "", false)));
    } else {
      forall t, e | GuardedReachable(t) && Online(t, d) && e in Entries(t, OwnChannel(d)) && !Expired(e, t.now)
        ensures Covered(t, t.sessions[t.registry[d]], OwnChannel(d), e.notif.msgId)
      {
        var run, steps :| IsGuardedRun(run, steps) && run[|steps|] == t;
        NoLostWakeUp(run, steps, |steps|, d, e);
      }
    }
  }
}
