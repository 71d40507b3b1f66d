/** Delivery of the notifications of one channel never gets stuck: a client that connects can be sent
    everything that is visible, in any state that a guarded run reaches. */
module UnicastProgress {
  import opened Sequences
  import opened Messages
  import opened Store
  import opened SeenState
  import opened UnicastDelivery
  import opened OverlappingRequests

  /** One part sent, handled with all of it addressed, and acknowledged. */
  function Delivered(s: State, sid: nat, part: seq<Notification>, rest: seq<Notification>): (r: State) {
    var t := Handled(s, sid, part, rest, IdSet(part));
    t.(entries := WithoutIds(t.entries, IdSet(part)), sessions := t.sessions[sid := SendNext(rest)])
  }

  lemma {:induction false} AllPicked(ids: seq<string>, chosen: set<string>)
    requires forall id :: id in ids ==> id in chosen
    ensures Picked(ids, chosen) == ids
  {
    if ids != [] {
      AllPicked(ids[1..], chosen);
    }
  }

  lemma {:induction false} DeliveredReachable(s: State, sid: nat, part: seq<Notification>, rest: seq<Notification>)
    requires GuardedReachable(s) && Ready(s, sid) && s.sessions[sid] == Sent(part, rest)
    ensures GuardedReachable(Delivered(s, sid, part, rest)) && Ready(Delivered(s, sid, part, rest), sid)
  {
    hide Reachable, GuardedReachable, Inv, SeenState.Fresh, AfterSeen, Picked, Ids, RowSet, SendNext, WithoutIds, IdSet;
    GuardedIsReachable(s);
    HandledReachable(s, sid, part, rest, IdSet(part));
    var t := Handled(s, sid, part, rest, IdSet(part));
    GuardedStepReachable(t, ServerAck(sid));
    assert Do(t, ServerAck(sid)) == Delivered(s, sid, part, rest);
  }

  /** What is accepted and dispatched of a part is what the client never recorded before. */
  lemma {:induction false} DeliveredDispatches(s: State, sid: nat, part: seq<Notification>, rest: seq<Notification>)
    requires GuardedReachable(s) && Ready(s, sid) && s.sessions[sid] == Sent(part, rest)
    ensures var t, unseen := Delivered(s, sid, part, rest), Ids(SeenState.Fresh(RowSet(s.accepted), part));
            && t.accepted == s.accepted + unseen && t.dispatched == s.dispatched + unseen
            && t.now == s.now && t.sessions[sid] == SendNext(rest)
            && t.entries == WithoutIds(s.entries, IdSet(part))
  {
    hide GuardedReachable, SendNext, WithoutIds, AfterSeen;
    PrunedTableAgrees(s, sid);
    var unseen := Ids(SeenState.Fresh(RowSet(s.rows), part));
    UnseenAreOfBatch(RowSet(s.rows), part);
    hide SeenState.Fresh;
    forall id | id in unseen
      ensures id in IdSet(part)
    {
      var k :| 0 <= k < |part| && Ids(part)[k] == id;
    }
    AllPicked(unseen, IdSet(part));
  }

  lemma {:induction false} FreshConcat(seen: set<string>, a: seq<Notification>, b: seq<Notification>)
    ensures SeenState.Fresh(seen, a + b) == SeenState.Fresh(seen, a) + SeenState.Fresh(seen + IdSet(a), b)
    decreases |a|
  {
    if a == [] {
      assert a + b == b && seen + IdSet(a) == seen;
    } else {
      var id, rest := a[0].msgId, a[1..];
      assert (a + b)[1..] == rest + b;
      assert a == [a[0]] + rest;
      assert seen + {id} + IdSet(rest) == seen + IdSet(a);
      if id in seen {
        assert seen + {id} == seen;
      }
      FreshConcat(seen + {id}, rest, b);
    }
  }

  /** What was recorded with a part: all its ids. */
  lemma {:induction false} RecordedWith(accepted: seq<string>, part: seq<Notification>)
    ensures RowSet(accepted + Ids(SeenState.Fresh(RowSet(accepted), part))) == RowSet(accepted) + IdSet(part)
  {
    var unseen := Ids(SeenState.Fresh(RowSet(accepted), part));
    FreshCovers(RowSet(accepted), part);
    UnseenAreOfBatch(RowSet(accepted), part);
    hide SeenState.Fresh;
    forall id | id in unseen
      ensures id in IdSet(part)
    {
      var k :| 0 <= k < |part| && Ids(part)[k] == id;
    }
  }

  /** A batch is delivered part by part: the state afterwards has dispatched, in order, what the client never
      recorded of it, and its entries are gone. */
  lemma {:induction false} DeliverBatch(s: State, sid: nat, ns: seq<Notification>) returns (t: State)
    requires GuardedReachable(s) && Ready(s, sid) && s.sessions[sid] == SendNext(ns) && Fits(ns)
    ensures GuardedReachable(t) && t.now == s.now
    ensures t.dispatched == s.dispatched + Ids(SeenState.Fresh(RowSet(s.accepted), ns))
    ensures forall e :: e in t.entries ==> e in s.entries && e.notif.msgId !in IdSet(ns)
    decreases |ns|
  {
    if ns == [] {
      t := s;
      assert s.dispatched + Ids(SeenState.Fresh(RowSet(s.accepted), ns)) == s.dispatched;
    } else {
      SendsFirst(ns);
      var Sent(part, rest) := s.sessions[sid];
      t := DeliverRest(s, sid, part, rest);
    }
  }

  lemma {:induction false} DeliverRest(s: State, sid: nat, part: seq<Notification>, rest: seq<Notification>)
    returns (t: State)
    requires GuardedReachable(s) && Ready(s, sid) && s.sessions[sid] == Sent(part, rest) && Fits(part + rest)
    requires part != []
    ensures GuardedReachable(t) && t.now == s.now
    ensures t.dispatched == s.dispatched + Ids(SeenState.Fresh(RowSet(s.accepted), part + rest))
    ensures forall e :: e in t.entries ==> e in s.entries && e.notif.msgId !in IdSet(part + rest)
    decreases |part + rest|, 0
  {
    hide GuardedReachable, Delivered, Fits, SendNext, WithoutIds, SeenState.Fresh, Ready, Ids, IdSet, RowSet;
    RestFits(part, rest);
    DeliveredReachable(s, sid, part, rest);
    DeliveredDispatches(s, sid, part, rest);
    var next := Delivered(s, sid, part, rest);
    t := DeliverBatch(next, sid, rest);
    WithoutIdsSubset(s.entries, IdSet(part));
    IdsConcat(part, rest);
    DispatchedInAll(s.accepted, part, rest);
  }

  lemma {:induction false} DispatchedInAll(accepted: seq<string>, part: seq<Notification>, rest: seq<Notification>)
    ensures var first := Ids(SeenState.Fresh(RowSet(accepted), part));
            Ids(SeenState.Fresh(RowSet(accepted), part + rest)) ==
            first + Ids(SeenState.Fresh(RowSet(accepted + first), rest))
  {
    RecordedWith(accepted, part);
    FreshConcat(RowSet(accepted), part, rest);
    IdsOfConcat(SeenState.Fresh(RowSet(accepted), part),
                SeenState.Fresh(RowSet(accepted) + IdSet(part), rest));
    hide SeenState.Fresh, RowSet, IdSet;
  }

  lemma {:induction false} IdsOfConcat(a: seq<Notification>, b: seq<Notification>)
    ensures Ids(a + b) == Ids(a) + Ids(b)
  {
  }

  lemma {:induction false} ConnectsAndPrepares(s: State, sid: nat) returns (t: State)
    requires GuardedReachable(s) && sid !in s.sessions
    ensures GuardedReachable(t) && Ready(t, sid)
    ensures t.sessions[sid] == SendNext(Notifs(Live(s.entries, s.now)))
    ensures t.now == s.now && t.entries == s.entries && t.accepted == s.accepted && t.dispatched == s.dispatched
  {
    hide GuardedReachable, Live, SendNext;
    GuardedStepReachable(s, Connect(sid));
    var s1 := Do(s, Connect(sid));
    GuardedStepReachable(s1, Prepare(sid));
    t := Do(s1, Prepare(sid));
  }

  lemma {:induction false} NothingVisible(s: State, t: State)
    requires KeyUnique(s.entries) && t.now == s.now
    requires forall e :: e in t.entries ==> e in s.entries && e.notif.msgId !in IdSet(Notifs(Live(s.entries, s.now)))
    ensures Live(t.entries, t.now) == []
  {
    LiveAreUnique(t.entries, t.now);
    var live := Live(t.entries, t.now);
    hide Live;
    if live != [] {
      assert live[0] in live && !Expired(live[0], t.now);
      UnexpiredIsVisible(s.entries, s.now, live[0]);
    }
  }

  lemma {:induction false} UnexpiredIsVisible(es: seq<Entry>, now: int, e: Entry)
    requires KeyUnique(es) && e in es && !Expired(e, now)
    ensures e.notif.msgId in IdSet(Notifs(Live(es, now)))
  {
    LiveOfUnique(es, now);
    UnexpiredKeeps(es, now, e);
    hide Live, Unexpired;
    var live := Live(es, now);
    var i :| 0 <= i < |live| && live[i] == e;
    assert Notifs(live)[i] == e.notif;
  }

  lemma {:induction false} UnexpiredKeeps(es: seq<Entry>, now: int, e: Entry)
    requires e in es && !Expired(e, now)
    ensures e in Unexpired(es, now)
  {
    if e != es[0] {
      assert es == [es[0]] + es[1..];
      UnexpiredKeeps(es[1..], now, e);
    }
  }

  /** From every state of a guarded run, a client that connects can be sent everything that is visible, if each
      notification alone fits a message.  Then nothing is visible any more, and what it never recorded before
      has been dispatched, in order. */
  lemma {:induction false} CanDeliverAll(s: State, sid: nat) returns (t: State)
    requires GuardedReachable(s) && sid !in s.sessions
    requires forall e :: e in s.entries && !Expired(e, s.now) ==> NotificationSize(e.notif) <= MAX_PAYLOAD_SIZE
    ensures GuardedReachable(t) && Live(t.entries, t.now) == []
    ensures t.dispatched == s.dispatched + Ids(SeenState.Fresh(RowSet(s.accepted), Notifs(Live(s.entries, s.now))))
  {
    GuardedIsReachable(s);
    FitsOf(s.entries, s.now);
    hide Live, GuardedReachable, SendNext, SeenState.Fresh, SessionInv, AcksInv, DispatchInv, TableInv, Remembered;
    var s1 := ConnectsAndPrepares(s, sid);
    t := DeliverBatch(s1, sid, Notifs(Live(s.entries, s.now)));
    NothingVisible(s, t);
  }
}
