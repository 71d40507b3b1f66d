/** Delivery of the notifications of all unicast channels of one device.  The client has one table of
    seen ids for all of them.

    A step is a step of `UnicastDelivery` on the entries of one channel; sessions, connection, table
    and clock are shared.  A session acknowledges to the channel that its exchange is of. */
module DeviceDelivery {
  import opened Sequences
  import opened Messages
  import opened Store
  import opened SeenState
  import One = UnicastDelivery
  import OverlappingRequests

  /** `shared` is everything but the entries, and `channelOf` the channel of the last exchange of
      each session. */
  datatype State = State(store: map<ChannelId, seq<Entry>>, channelOf: map<nat, ChannelId>, shared: One.State)

  const INIT := State(map[], map[], One.INIT)

  datatype Step = On(chanId: ChannelId, step: One.Step)

  function Entries(s: State, c: ChannelId): (es: seq<Entry>) {
    if c in s.store then s.store[c] else []
  }

  /** The state as one channel has it. */
  function View(s: State, c: ChannelId): (t: One.State) {
    s.shared.(entries := Entries(s, c))
  }

  predicate Enabled(s: State, x: Step) {
    && One.Enabled(View(s, x.chanId), x.step)
    && (x.step.ServerAck? ==> x.step.sid in s.channelOf && s.channelOf[x.step.sid] == x.chanId)
  }

  function Do(s: State, x: Step): (t: State)
    requires Enabled(s, x)
  {
    var v := One.Do(View(s, x.chanId), x.step);
    State(s.store[x.chanId := v.entries],
          if x.step.Prepare? then s.channelOf[x.step.sid := x.chanId] else s.channelOf,
          v.(entries := []))
  }

  ghost predicate Guarded(s: State, x: Step) {
    One.Guarded(View(s, x.chanId), x.step)
  }

  ghost predicate IsRun(run: seq<State>, steps: seq<Step>) {
    && |run| == |steps| + 1 && run[0] == INIT
    && forall i :: 0 <= i < |steps| ==> Enabled(run[i], steps[i]) && run[i + 1] == Do(run[i], steps[i])
  }

  ghost predicate Reachable(t: State) {
    exists run, steps :: IsRun(run, steps) && run[|steps|] == t
  }

  /** Reachable with guarded appends to these channels only. */
  ghost predicate ReachableWith(channels: set<ChannelId>, t: State) {
    exists run, steps :: IsRunWith(channels, run, steps) && run[|steps|] == t
  }

  ghost predicate IsRunWith(channels: set<ChannelId>, run: seq<State>, steps: seq<Step>) {
    && IsRun(run, steps)
    && forall i :: 0 <= i < |steps| ==> Guarded(run[i], steps[i]) && Uses(channels, steps[i])
  }

  ghost predicate Uses(channels: set<ChannelId>, x: Step) {
    x.step.Append? ==> x.chanId in channels
  }

  lemma {:induction false} InitReachable(channels: set<ChannelId>)
    ensures ReachableWith(channels, INIT)
  {
    var steps: seq<Step> := [];
    assert IsRunWith(channels, [INIT], steps) && [INIT][|steps|] == INIT;
  }

  lemma {:induction false} StepReachable(channels: set<ChannelId>, s: State, x: Step)
    requires ReachableWith(channels, s) && Enabled(s, x) && Guarded(s, x) && Uses(channels, x)
    ensures ReachableWith(channels, Do(s, x))
  {
    hide Enabled, Do, Guarded, Uses;
    var run, steps :| IsRunWith(channels, run, steps) && run[|steps|] == s;
    var run', steps' := run + [Do(s, x)], steps + [x];
    assert IsRun(run', steps');
    assert IsRunWith(channels, run', steps');
    assert run'[|steps'|] == Do(s, x);
  }

  // ----- With one channel ----------------------------------------------------------------------

  /** All goes on in the channel `own`, as it would without other channels. */
  ghost predicate Follows(s: State, own: ChannelId) {
    && One.GuardedReachable(View(s, own))
    && s.shared.entries == []
    && (forall c :: c != own ==> Entries(s, c) == [])
    && forall sid :: sid in s.shared.sessions && !s.shared.sessions[sid].Idle? ==>
         sid in s.channelOf && s.channelOf[sid] == own
  }

  /** A step in another channel is one in the channel `own` as well, or changes nothing there. */
  lemma {:induction false} OtherChannel(s: State, x: Step, own: ChannelId)
    requires Follows(s, own) && Enabled(s, x) && x.chanId != own && !x.step.Append?
    ensures var t := Do(s, x);
            && Entries(t, x.chanId) == []
            && (View(t, own) == View(s, own) ||
                (One.Enabled(View(s, own), x.step) && View(t, own) == One.Do(View(s, own), x.step)))
    ensures x.step.Prepare? ==> Do(s, x).shared.sessions[x.step.sid].Idle?
  {
    hide One.GuardedReachable;
    if x.step.Scrub? {
      assert View(Do(s, x), own) == View(s, own);
    } else if x.step.Prepare? {
      assert s.shared.sessions[x.step.sid := One.Idle] == s.shared.sessions;
      assert View(Do(s, x), own) == View(s, own);
    } else if x.step.ServerAck? {
      assert false;
    } else {
      assert View(Do(s, x), own) == One.Do(View(s, own), x.step);
    }
  }

  lemma {:induction false} ChannelsKept(s: State, x: Step, own: ChannelId)
    requires Follows(s, own) && Enabled(s, x) && (x.chanId != own ==> !x.step.Append?)
    ensures var t := Do(s, x);
            forall sid :: sid in t.shared.sessions && !t.shared.sessions[sid].Idle? ==>
              sid in t.channelOf && t.channelOf[sid] == own
  {
    hide One.GuardedReachable;
    if x.chanId != own {
      OtherChannel(s, x, own);
    }
    hide One.SendNext, Live;
  }

  lemma {:induction false} ViewReachable(s: State, x: Step, own: ChannelId)
    requires Follows(s, own) && Enabled(s, x) && Guarded(s, x) && Uses({own}, x)
    ensures One.GuardedReachable(View(Do(s, x), own))
  {
    hide One.GuardedReachable, One.Do, One.Enabled;
    var v, w := View(s, own), View(Do(s, x), own);
    assert One.GuardedReachable(v);
    if x.chanId == own {
      assert w == One.Do(v, x.step);
      One.GuardedStepReachable(v, x.step);
    } else {
      OtherChannel(s, x, own);
      if w != v {
        assert One.Guarded(v, x.step);
        One.GuardedStepReachable(v, x.step);
      }
    }
  }

  lemma {:induction false} StepFollows(s: State, x: Step, own: ChannelId)
    requires Follows(s, own) && Enabled(s, x) && Guarded(s, x) && Uses({own}, x)
    ensures Follows(Do(s, x), own)
  {
    ChannelsKept(s, x, own);
    ViewReachable(s, x, own);
    hide One.Enabled;
    var t := Do(s, x);
    assert One.GuardedReachable(View(t, own));
    assert forall c :: c != x.chanId ==> Entries(t, c) == Entries(s, c);
    if x.chanId != own {
      OtherChannel(s, x, own);
    }
  }

  lemma {:induction false} RunFollows(run: seq<State>, steps: seq<Step>, i: nat, own: ChannelId)
    requires IsRunWith({own}, run, steps) && i < |run|
    ensures Follows(run[i], own)
    decreases i
  {
    if i == 0 {
      One.InitReachable();
      assert View(INIT, own) == One.INIT;
    } else {
      RunFollows(run, steps, i - 1, own);
      assert run[i] == Do(run[i - 1], steps[i - 1]);
      hide Follows, Do, Enabled, Guarded, Uses;
      StepFollows(run[i - 1], steps[i - 1], own);
    }
  }

  lemma {:induction false} ReachableFollows(s: State, own: ChannelId)
    requires ReachableWith({own}, s)
    ensures Follows(s, own)
  {
    hide Follows;
    var run, steps :| IsRunWith({own}, run, steps) && run[|steps|] == s;
    RunFollows(run, steps, |steps|, own);
  }

  /** With all appends to one channel, at most once for the whole device: no id is dispatched twice, and
      ids are accepted and dispatched in append order. */
  lemma {:induction false} AtMostOnce(s: State, own: ChannelId)
    requires ReachableWith({own}, s)
    ensures var t := s.shared;
            && Distinct(t.dispatched) && One.Sorted(t.dispatched, t.born)
            && Distinct(t.accepted) && One.Sorted(t.accepted, t.born)
            && forall id :: id in t.dispatched ==> id in t.accepted
  {
    ReachableFollows(s, own);
    One.AtMostOnce(View(s, own));
  }

  /** An id whose seen row was deleted is not visible in any channel, nor still to be sent. */
  lemma {:induction false} DeletedIdsNeverReturn(s: State, own: ChannelId, id: string, c: ChannelId)
    requires ReachableWith({own}, s) && id in s.shared.accepted && id !in s.shared.rows
    ensures id !in One.VisibleIds(Entries(s, c), s.shared.now) && id !in One.Current(s.shared)
  {
    ReachableFollows(s, own);
    One.DeletedIdsNeverReturn(View(s, own), id);
    assert One.Current(s.shared) == One.Current(View(s, own));
  }

  /** On every part that reaches the client the pruned table answers as one that forgets nothing. */
  lemma {:induction false} PrunedTableAgrees(s: State, own: ChannelId, x: Step, sid: nat)
    requires ReachableWith({own}, s) && Enabled(s, x) && x.step == One.Receive(sid)
    ensures var part := s.shared.sessions[sid].part;
            Fresh(RowSet(s.shared.rows), part) == Fresh(RowSet(s.shared.accepted), part)
  {
    hide Fresh;
    ReachableFollows(s, own);
    One.PrunedTableAgrees(View(s, own), sid);
  }

  // ----- With any channels ---------------------------------------------------------------------

  lemma {:induction false} StepRecords(s: State, x: Step)
    requires One.RecordedInv(s.shared) && Enabled(s, x)
    ensures One.RecordedInv(Do(s, x).shared)
  {
    hide One.Enabled, One.Do, One.RecordedInv;
    RecordsFrame(s.shared, Entries(s, x.chanId));
    One.StepRecords(View(s, x.chanId), x.step);
    RecordsFrame(One.Do(View(s, x.chanId), x.step), []);
  }

  lemma {:induction false} RunRecords(run: seq<State>, steps: seq<Step>, i: nat)
    requires IsRun(run, steps) && i < |run|
    ensures One.RecordedInv(run[i].shared)
    decreases i
  {
    if i > 0 {
      RunRecords(run, steps, i - 1);
      assert run[i] == Do(run[i - 1], steps[i - 1]);
      hide Enabled, Do, One.RecordedInv;
      StepRecords(run[i - 1], steps[i - 1]);
    }
  }

  lemma {:induction false} RecordsFrame(s: One.State, es: seq<Entry>)
    requires One.RecordedInv(s)
    ensures One.RecordedInv(s.(entries := es))
  {
  }

  /** Every id the server drops on an ack, from any channel, was recorded by the client before. */
  lemma {:induction false} DroppedWasRecorded(s: State, x: Step, c: ChannelId)
    requires Reachable(s) && Enabled(s, x) && x.step.ServerAck?
    ensures forall e :: e in Entries(s, c) && e !in Entries(Do(s, x), c) ==> e.notif.msgId in s.shared.accepted
  {
    var run, steps :| IsRun(run, steps) && run[|steps|] == s;
    RunRecords(run, steps, |steps|);
    hide WithoutIds, One.SendNext;
    var ids := IdSet(s.shared.sessions[x.step.sid].part);
    forall e | e in Entries(s, c) && e !in Entries(Do(s, x), c)
      ensures e.notif.msgId in s.shared.accepted
    {
      assert c == x.chanId;
      One.DroppedIsTarget(Entries(s, c), ids, e);
      RowSetMember(s.shared.accepted, e.notif.msgId);
    }
  }

  // ----- With two channels ---------------------------------------------------------------------

  /** A connected session sends the only visible notification of a channel; the client, which has no
      row for it, handles it, and its ack is on the way. */
  lemma {:induction false} DeliverOne(channels: set<ChannelId>, s: State, sid: nat, c: ChannelId, n: Notification,
                                      addressed: set<string>)
    returns (t: State)
    requires ReachableWith(channels, s) && OverlappingRequests.Ready(s.shared, sid) && s.shared.sessions[sid].Idle?
    requires Notifs(Live(Entries(s, c), s.shared.now)) == [n]
    requires NotificationSize(n) <= MAX_PAYLOAD_SIZE && n.msgId !in s.shared.rows
    ensures ReachableWith(channels, t) && OverlappingRequests.Ready(t.shared, sid)
    ensures t.shared.sessions == s.shared.sessions[sid := One.Acked([n], [])] && t.channelOf == s.channelOf[sid := c]
    ensures t.shared.now == s.shared.now && t.shared.rows == [n.msgId] && t.shared.born == s.shared.born
    ensures forall k :: Entries(t, k) == Entries(s, k)
    ensures t.shared.dispatched == s.shared.dispatched + if n.msgId in addressed then [n.msgId] else []
  {
    hide ReachableWith, Live, One.SendNext, One.Picked, Fresh, AfterSeen, NotificationSize;
    One.OneIsSent(n);
    OnlyRow(s.shared.rows, n, addressed);
    StepReachable(channels, s, On(c, One.Prepare(sid)));
    var s1 := Do(s, On(c, One.Prepare(sid)));
    StepReachable(channels, s1, On(c, One.Receive(sid)));
    var s2 := Do(s1, On(c, One.Receive(sid)));
    StepReachable(channels, s2, On(c, One.Ack(sid, addressed, true)));
    t := Do(s2, On(c, One.Ack(sid, addressed, true)));
    assert s2.shared.sessions[sid].Sent?;
  }

  lemma {:induction false} OnlyRow(rows: seq<string>, n: Notification, addressed: set<string>)
    requires n.msgId !in rows
    ensures AfterSeen(rows, [n]) == [n.msgId]
    ensures var unseen := Ids(Fresh(RowSet(rows), [n]));
            One.Picked(unseen, addressed) == if n.msgId in addressed then [n.msgId] else []
  {
    assert [n][1..] == [] && [n.msgId][1..] == [];
    assert Fresh(RowSet(rows), [n]) == [n] && Ids([n]) == [n.msgId];
    One.DropToLast(rows, n.msgId);
  }

  /** The ack of the only notification of an exchange reaches the server. */
  lemma {:induction false} AckOne(channels: set<ChannelId>, s: State, sid: nat, c: ChannelId, n: Notification)
    returns (t: State)
    requires ReachableWith(channels, s) && OverlappingRequests.Ready(s.shared, sid)
    requires s.shared.sessions[sid] == One.Acked([n], []) && sid in s.channelOf && s.channelOf[sid] == c
    ensures ReachableWith(channels, t) && OverlappingRequests.Ready(t.shared, sid) && t.shared.sessions[sid].Idle?
    ensures t.shared.now == s.shared.now && t.shared.rows == s.shared.rows
    ensures t.shared.dispatched == s.shared.dispatched
    ensures forall k :: k != c ==> Entries(t, k) == Entries(s, k)
  {
    hide ReachableWith, WithoutIds;
    StepReachable(channels, s, On(c, One.ServerAck(sid)));
    t := Do(s, On(c, One.ServerAck(sid)));
  }

  /** A second channel makes the client dispatch again.  A notification that was dispatched but not
      dropped, since its ack was lost, comes after one of another channel, whose delivery has deleted
      its seen row. */
  lemma {:induction false} OtherChannelDispatchesAgain(channels: set<ChannelId>, s: State, a: ChannelId, b: ChannelId,
                                                       x: Notification, y: Notification, sid: nat)
    requires ReachableWith(channels, s) && a != b && x.msgId != y.msgId && sid !in s.shared.sessions
    requires Notifs(Live(Entries(s, a), s.shared.now)) == [x] && Notifs(Live(Entries(s, b), s.shared.now)) == [y]
    requires NotificationSize(x) <= MAX_PAYLOAD_SIZE && NotificationSize(y) <= MAX_PAYLOAD_SIZE
    requires y.msgId !in s.shared.rows
    ensures exists t :: ReachableWith(channels, t) && t.shared.dispatched == s.shared.dispatched + [x.msgId]
  {
    hide ReachableWith, Live, NotificationSize;
    StepReachable(channels, s, On(b, One.Connect(sid)));
    var s1 := Do(s, On(b, One.Connect(sid)));
    assert forall k :: Entries(s1, k) == Entries(s, k);
    var s2 := DeliverOne(channels, s1, sid, b, y, {});
    var s3 := AckOne(channels, s2, sid, b, y);
    assert Entries(s3, a) == Entries(s, a);
    var t := DeliverOne(channels, s3, sid, a, x, {x.msgId});
  }

  /** So the client never dispatches an id twice on any guarded run with appends to these channels if
      and only if they are one at most. */
  lemma {:induction false} AtMostOnceIffOneChannel(channels: set<ChannelId>)
    ensures (forall t :: ReachableWith(channels, t) ==> Distinct(t.shared.dispatched)) <==>
            (forall a, b :: a in channels && b in channels ==> a == b)
  {
    if a, b :| a in channels && b in channels && a != b {
      TwoChannelsDispatchTwice(channels, a, b);
    } else {
      var own := if channels == {} then "" else var c :| c in channels; c;
      forall t | ReachableWith(channels, t)
        ensures Distinct(t.shared.dispatched)
      {
        AtMostOnce(t, own);
      }
    }
  }

  lemma {:induction false} TwoChannelsDispatchTwice(channels: set<ChannelId>, a: ChannelId, b: ChannelId)
    requires a in channels && b in channels && a != b
    ensures exists t :: ReachableWith(channels, t) && !Distinct(t.shared.dispatched)
  {
    var x, y := Notification("app", "x", "1"), Notification("app", "y", "1");
    var ex, ey := Entry(x, Metadata(0, "", false)), Entry(y, Metadata(0, "", false));
    hide ReachableWith, Live;
    InitReachable(channels);
    StepReachable(channels, INIT, On(a, One.Append(ex)));
    var s1 := Do(INIT, On(a, One.Append(ex)));
    StepReachable(channels, s1, On(a, One.Connect(0)));
    var s2 := Do(s1, On(a, One.Connect(0)));
    assert Entries(s2, a) == [ex];
    OverlappingRequests.LiveOfOne(ex, 0);
    var s3 := DeliverOne(channels, s2, 0, a, x, {"x"});
    assert Entries(s3, b) == [] && s3.shared.dispatched == ["x"];
    StepReachable(channels, s3, On(b, One.Append(ey)));
    var s4 := Do(s3, On(b, One.Append(ey)));
    assert Entries(s4, b) == [ey] && Entries(s4, a) == [ex];
    OverlappingRequests.LiveOfOne(ey, 0);
    OtherChannelDispatchesAgain(channels, s4, a, b, x, y, 1);
    var t :| ReachableWith(channels, t) && t.shared.dispatched == ["x"] + ["x"];
    assert t.shared.dispatched[0] == t.shared.dispatched[1];
  }
}
