/** The handlers of client/session/session.go: the client records, then acknowledges, then dispatches. */
module ClientSession {
  import opened Sequences
  import opened Messages
  import opened Store
  import opened ChannelIds
  import opened SeenState
  import UnicastDelivery

  /** What the client sends out, in order.  An ack carries what was recorded when it was written. */
  datatype Event =
    | Ack(rows: seq<string>, levels: map<string, int>)
    | Nak
    | Dispatched(notif: Notification)
    | Broadcast(topLevel: int, payloads: seq<string>)

  /** The events of these notifications that have an addressee. */
  function Dispatches(ns: seq<Notification>, addressed: set<string>): (r: seq<Event>) {
    if ns == [] then []
    else if ns[0].msgId in addressed then [Dispatched(ns[0])] + Dispatches(ns[1..], addressed)
    else Dispatches(ns[1..], addressed)
  }

  function DispatchedIds(events: seq<Event>): (r: seq<string>) {
    if events == [] then []
    else if events[0].Dispatched? then [events[0].notif.msgId] + DispatchedIds(events[1..])
    else DispatchedIds(events[1..])
  }

  lemma {:induction false} DispatchesStep(ns: seq<Notification>, addressed: set<string>, i: nat)
    requires i < |ns|
    ensures Dispatches(ns[i..], addressed) ==
            (if ns[i].msgId in addressed then [Dispatched(ns[i])] else []) + Dispatches(ns[i + 1..], addressed)
  {
    assert ns[i..][1..] == ns[i + 1..];
  }

  /** The ids dispatched are those that the transition system of `UnicastDelivery` picks. */
  lemma {:induction false} DispatchesArePicked(ns: seq<Notification>, addressed: set<string>)
    ensures DispatchedIds(Dispatches(ns, addressed)) == UnicastDelivery.Picked(Ids(ns), addressed)
  {
    if ns != [] {
      DispatchesArePicked(ns[1..], addressed);
      assert Ids(ns)[1..] == Ids(ns[1..]);
      var rest := Dispatches(ns[1..], addressed);
      assert ([Dispatched(ns[0])] + rest)[1..] == rest;
    }
  }

  /** Dispatched are the notifications that have an addressee, in their order. */
  lemma {:induction false} DispatchedIff(ns: seq<Notification>, addressed: set<string>) returns (at: seq<nat>)
    ensures Positions(at, |ns|) && |Dispatches(ns, addressed)| == |at|
    ensures forall k :: 0 <= k < |at| ==> Dispatches(ns, addressed)[k] == Dispatched(ns[at[k]])
    ensures forall i :: 0 <= i < |ns| ==> (i in at <==> ns[i].msgId in addressed)
  {
    if ns == [] {
      at := [];
    } else {
      var rest := DispatchedIff(ns[1..], addressed);
      at := SelectStep(ns, rest, ns[0].msgId in addressed);
      var later := Select(ns[1..], rest);
      assert forall k :: 0 <= k < |at| ==> Select(ns, at)[k] == ns[at[k]];
      assert forall k :: 0 <= k < |rest| ==> Dispatches(ns[1..], addressed)[k] == Dispatched(later[k]);
    }
  }

  class ClientSession {
    const seenState: SqliteSeenState
    var failed: bool
    var events: seq<Event>

    constructor (seenState: SqliteSeenState)
      ensures this.seenState == seenState && !failed && events == []
    {
      this.seenState, failed, events := seenState, false, [];
    }

    /** `dbFails` tells where recording fails, if it does; the server then gets a nak.  `ackFails` tells
        whether writing the ack fails.  In both cases nothing is dispatched, but what was recorded stays. */
    method HandleNotifications(notifs: seq<Notification>, addressed: set<string>, dbFails: Option<nat>, ackFails: bool)
      returns (ok: bool)
      requires dbFails.Some? ==> dbFails.value <= |notifs| && notifs != []
      modifies this, seenState`rows
      ensures ok == !(dbFails.Some? || ackFails) && failed == (old(failed) || !ok)
      ensures var rows := old(seenState.rows);
              seenState.rows == match dbFails
                                case None => AfterSeen(rows, notifs)
                                case Some(k) => rows + Ids(Fresh(RowSet(rows), notifs[..k]))
      ensures events == old(events) +
                        if dbFails.Some? then [Nak]
                        else if ackFails then []
                        else [Ack(seenState.rows, seenState.levels)] +
                             Dispatches(Fresh(RowSet(old(seenState.rows)), notifs), addressed)
    {
      hide Dispatches;
      if dbFails.Some? {
        seenState.FailToFilter(notifs, dbFails.value);
        failed := true;
        events := events + [Nak];
        return false;
      }
      var unseen := seenState.FilterBySeen(notifs);
      if ackFails {
        failed := true;
        return false;
      }
      events := events + [Ack(seenState.rows, seenState.levels)];
      ghost var before := events;
      assert unseen[0..] == unseen;
      for i := 0 to |unseen|
        invariant events + Dispatches(unseen[i..], addressed) == before + Dispatches(unseen, addressed)
        invariant failed == old(failed)
        modifies this
      {
        DispatchesStep(unseen, addressed, i);
        if unseen[i].msgId in addressed {
          events := events + [Dispatched(unseen[i])];
        }
      }
      NoDispatches(addressed);
      assert unseen[|unseen|..] == [] && events + [] == events;
      return true;
    }

    /** The level is recorded before the ack; only the system channel is passed on. */
    method HandleBroadcast(chanId: ChannelId, topLevel: int, payloads: seq<string>, dbFails: bool, ackFails: bool)
      returns (ok: bool)
      modifies this, seenState`levels
      ensures ok == !(dbFails || ackFails) && failed == (old(failed) || !ok)
      ensures seenState.levels == if dbFails then old(seenState.levels) else old(seenState.levels)[chanId := topLevel]
      ensures events == old(events) +
                        if dbFails then [Nak]
                        else if ackFails then []
                        else [Ack(seenState.rows, seenState.levels)] +
                             if chanId == SYSTEM_CHANNEL then [Broadcast(topLevel, payloads)] else []
    {
      if dbFails {
        failed := true;
        events := events + [Nak];
        return false;
      }
      seenState.SetLevel(chanId, topLevel);
      if ackFails {
        failed := true;
        return false;
      }
      events := events + [Ack(seenState.rows, seenState.levels)];
      if chanId == SYSTEM_CHANNEL {
        events := events + [Broadcast(topLevel, payloads)];
      }
      return true;
    }
  }

  lemma {:induction false} NoDispatches(addressed: set<string>)
    ensures Dispatches([], addressed) == []
  {
  }
}
