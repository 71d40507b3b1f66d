/** What keeps unicast delivery at most once: requests that do not overlap append guarded, and an append
    that is not guarded can make the client dispatch a notification again. */
module OverlappingRequests {
  import opened Sequences
  import opened Messages
  import opened Store
  import opened Handlers
  import opened SeenState
  import opened UnicastDelivery

  // ----- Requests handled one at a time --------------------------------------------------------

  /** The state after the steps, or nothing when one of them is not enabled. */
  function After(s: State, steps: seq<Step>): (t: Option<State>)
    decreases |steps|
  {
    if steps == [] then Some(s)
    else if Enabled(s, steps[0]) then After(Do(s, steps[0]), steps[1..])
    else None
  }

  /** There is a state after the steps if and only if each of them is enabled in its turn. */
  lemma {:induction false} AfterIff(s: State, steps: seq<Step>) returns (run: seq<State>)
    ensures 0 < |run| <= |steps| + 1 && run[0] == s
    ensures forall i :: 0 <= i < |run| - 1 ==> Enabled(run[i], steps[i]) && run[i + 1] == Do(run[i], steps[i])
    ensures After(s, steps) == if |run| == |steps| + 1 then Some(run[|steps|]) else None
    ensures |run| <= |steps| ==> !Enabled(run[|run| - 1], steps[|run| - 1])
    decreases |steps|
  {
    hide Enabled, Do;
    if steps == [] || !Enabled(s, steps[0]) {
      run := [s];
    } else {
      var rest := AfterIff(Do(s, steps[0]), steps[1..]);
      run := [s] + rest;
    }
  }

  /** None of these steps is a store call of a request. */
  ghost predicate NoRequest(steps: seq<Step>) {
    forall i :: 0 <= i < |steps| ==> !steps[i].Append? && !steps[i].Scrub?
  }

  /** Between the store calls of a request entries can only go, and time can only pass. */
  lemma {:induction false} OnlyDrops(s: State, steps: seq<Step>)
    requires NoRequest(steps) && After(s, steps).Some? && KeyUnique(s.entries)
    ensures var t := After(s, steps).value;
            && s.now <= t.now && KeyUnique(t.entries) && forall e :: e in t.entries ==> e in s.entries
    decreases |steps|
  {
    if steps != [] {
      StepOnlyDrops(s, steps[0]);
      hide Enabled, Do;
      OnlyDrops(Do(s, steps[0]), steps[1..]);
    }
  }

  lemma {:induction false} StepOnlyDrops(s: State, step: Step)
    requires Enabled(s, step) && !step.Append? && !step.Scrub? && KeyUnique(s.entries)
    ensures var t := Do(s, step);
            && s.now <= t.now && KeyUnique(t.entries) && forall e :: e in t.entries ==> e in s.entries
  {
    if step.ServerAck? {
      var ids := IdSet(s.sessions[step.sid].part);
      hide WithoutIds, KeyUnique;
      WithoutIdsSubset(s.entries, ids);
      WithoutIdsUnique(s.entries, ids);
    }
  }

  /** The three store calls of a request that no other request overlaps: it reads the entries, scrubs,
      and appends, while sessions, acks and the clock go on in between.  The scrub is a step of the
      system or nothing at all, and the append is guarded. */
  lemma {:induction false} LoneRequestIsGuarded(s: State, before: seq<Step>, after: seq<Step>,
                                                r: Unicast, msgId: string, now: int)
    requires KeyUnique(s.entries) && now <= s.now && NoRequest(before) && NoRequest(after)
    requires After(s, before).Some?
    ensures var s1 := After(s, before).value;
            var scrubbed := s1.(entries := ScrubbedAfter(s.entries, s1.entries, r, now, s1.now));
            && (scrubbed == s1 || exists appId, tag :: scrubbed == Do(s1, Step.Scrub(appId, tag)))
            && (After(scrubbed, after).Some? ==> Guarded(After(scrubbed, after).value, Append(NewEntry(r, msgId))))
  {
    OnlyDrops(s, before);
    hide Live, Unmatched, After, Replaceable, ExpiredCount;
    var s1 := After(s, before).value;
    var scrubbed := s1.(entries := ScrubbedAfter(s.entries, s1.entries, r, now, s1.now));
    ScrubMakesRoom(s.entries, s1.entries, r, now, s1.now);
    assert scrubbed == s1 || scrubbed == Do(s1, Step.Scrub(r.appId, ""))
           || scrubbed == Do(s1, Step.Scrub(r.appId, r.replaceTag)) || scrubbed == Do(s1, Step.Scrub("", ""));
    if After(scrubbed, after).Some? {
      OnlyDrops(scrubbed, after);
    }
  }

  // ----- One part of a batch -------------------------------------------------------------------

  ghost predicate Fits(ns: seq<Notification>) {
    forall i :: 0 <= i < |ns| ==> NotificationSize(ns[i]) <= MAX_PAYLOAD_SIZE
  }

  /** The client is connected to a session of a running server side and free to handle a message. */
  ghost predicate Ready(s: State, sid: nat) {
    s.conn == Some(sid) && s.handling.None? && sid in s.live && sid in s.sessions
  }

  /** The client has handled a part, dispatching what is `addressed`, and its ack is on the way. */
  function Handled(s: State, sid: nat, part: seq<Notification>, rest: seq<Notification>, addressed: set<string>)
    : (t: State)
  {
    var unseen := Ids(SeenState.Fresh(RowSet(s.rows), part));
    s.(sessions := s.sessions[sid := Acked(part, rest)], rows := AfterSeen(s.rows, part),
       accepted := s.accepted + unseen, dispatched := s.dispatched + Picked(unseen, addressed))
  }

  lemma {:induction false} HandledReachable(s: State, sid: nat, part: seq<Notification>, rest: seq<Notification>,
                                            addressed: set<string>)
    requires Reachable(s) && Ready(s, sid) && s.sessions[sid] == Sent(part, rest)
    ensures Reachable(Handled(s, sid, part, rest, addressed))
    ensures GuardedReachable(s) ==> GuardedReachable(Handled(s, sid, part, rest, addressed))
  {
    hide Reachable, GuardedReachable, Fresh, AfterSeen, Picked, Ids, RowSet;
    var s1 := Do(s, Receive(sid));
    StepReachable(s, Receive(sid));
    StepReachable(s1, Ack(sid, addressed, true));
    if GuardedReachable(s) {
      GuardedStepReachable(s, Receive(sid));
      GuardedStepReachable(s1, Ack(sid, addressed, true));
    }
  }

  /** One part sent, handled without a dispatch, and acknowledged. */
  function Passed(s: State, sid: nat, part: seq<Notification>, rest: seq<Notification>): (r: State) {
    var t := Handled(s, sid, part, rest, {});
    t.(entries := WithoutIds(t.entries, IdSet(part)), sessions := t.sessions[sid := SendNext(rest)])
  }

  lemma {:induction false} PassedReachable(s: State, sid: nat, part: seq<Notification>, rest: seq<Notification>)
    requires Reachable(s) && Ready(s, sid) && s.sessions[sid] == Sent(part, rest)
    ensures Reachable(Passed(s, sid, part, rest)) && Ready(Passed(s, sid, part, rest), sid)
    ensures Passed(s, sid, part, rest).dispatched == s.dispatched
  {
    HandledReachable(s, sid, part, rest, {});
    NothingPicked(Ids(SeenState.Fresh(RowSet(s.rows), part)));
    hide Reachable, Fresh, AfterSeen, Picked, Ids, RowSet, SendNext, WithoutIds, IdSet;
    var t := Handled(s, sid, part, rest, {});
    StepReachable(t, ServerAck(sid));
    assert Do(t, ServerAck(sid)) == Passed(s, sid, part, rest);
  }

  lemma {:induction false} NothingPicked(ids: seq<string>)
    ensures Picked(ids, {}) == []
  {
    if ids != [] {
      NothingPicked(ids[1..]);
    }
  }

  lemma {:induction false} SendsFirst(ns: seq<Notification>)
    requires ns != [] && Fits(ns)
    ensures SendNext(ns).Sent? && SendNext(ns).part + SendNext(ns).rest == ns && SendNext(ns).part != []
  {
  }

  // ----- A whole batch -------------------------------------------------------------------------

  /** A state after a batch: its entries are gone, the others are still there, and the id `xid` has no
      row, if it had none before and the batch does not have it. */
  ghost predicate Drained(s: State, t: State, sid: nat, ids: set<string>, xid: string) {
    && Ready(t, sid) && t.sessions[sid] == Idle
    && t.now == s.now && t.dispatched == s.dispatched && xid !in t.rows
    && (forall e :: e in t.entries ==> e in s.entries && e.notif.msgId !in ids)
    && (forall e :: e in s.entries && e.notif.msgId !in ids ==> e in t.entries)
  }

  lemma {:induction false} WithoutIdsKeeps(es: seq<Entry>, ids: set<string>)
    ensures forall e :: e in es && e.notif.msgId !in ids ==> e in WithoutIds(es, ids)
  {
    if es != [] {
      assert es == [es[0]] + es[1..];
      WithoutIdsKeeps(es[1..], ids);
    }
  }

  lemma {:induction false} UnseenAreOfBatch(seen: set<string>, ns: seq<Notification>)
    ensures forall id :: id in Ids(SeenState.Fresh(seen, ns)) ==> id in Ids(ns)
    decreases |ns|
  {
    if ns != [] {
      var rest := if ns[0].msgId in seen then SeenState.Fresh(seen, ns[1..])
                  else SeenState.Fresh(seen + {ns[0].msgId}, ns[1..]);
      UnseenAreOfBatch(if ns[0].msgId in seen then seen else seen + {ns[0].msgId}, ns[1..]);
      assert Ids(ns) == [ns[0].msgId] + Ids(ns[1..]);
      assert Ids([ns[0]] + rest) == [ns[0].msgId] + Ids(rest);
    }
  }

  lemma {:induction false} RowsAreOld(rows: seq<string>, part: seq<Notification>, xid: string)
    requires xid !in rows && xid !in Ids(part)
    ensures xid !in AfterSeen(rows, part)
  {
    if part != [] {
      var unseen := Ids(SeenState.Fresh(RowSet(rows), part));
      UnseenAreOfBatch(RowSet(rows), part);
      DropBeforeSubset(rows + unseen, part[0].msgId);
    }
  }

  lemma {:induction false} IdsConcat(a: seq<Notification>, b: seq<Notification>)
    ensures Ids(a + b) == Ids(a) + Ids(b) && IdSet(a + b) == IdSet(a) + IdSet(b)
  {
  }

  /** One part drains its own entries. */
  lemma {:induction false} PassDrains(s: State, sid: nat, part: seq<Notification>, rest: seq<Notification>, xid: string)
    requires Ready(s, sid) && s.sessions[sid] == Sent(part, rest)
    ensures var t := Passed(s, sid, part, rest);
            && t.now == s.now
            && (forall e :: e in t.entries <==> e in s.entries && e.notif.msgId !in IdSet(part))
            && (xid !in s.rows && xid !in Ids(part) ==> xid !in t.rows)
  {
    hide WithoutIds, AfterSeen, Picked;
    WithoutIdsSubset(s.entries, IdSet(part));
    WithoutIdsKeeps(s.entries, IdSet(part));
    if xid !in s.rows && xid !in Ids(part) {
      RowsAreOld(s.rows, part, xid);
    }
  }

  lemma {:induction false} Drain(s: State, sid: nat, ns: seq<Notification>, xid: string) returns (t: State)
    requires Reachable(s) && Ready(s, sid) && s.sessions[sid] == SendNext(ns) && Fits(ns)
    requires xid !in s.rows && xid !in Ids(ns)
    ensures Reachable(t) && Drained(s, t, sid, IdSet(ns), xid)
    decreases |ns|
  {
    if ns == [] {
      t := s;
    } else {
      SendsFirst(ns);
      var Sent(part, rest) := s.sessions[sid];
      IdsConcat(part, rest);
      t := DrainRest(s, sid, part, rest, xid) by {
        PassDrains(s, sid, part, rest, xid);
      }
    }
  }

  /** Passes a part, and then what comes after it. */
  lemma {:induction false} DrainRest(s: State, sid: nat, part: seq<Notification>, rest: seq<Notification>, xid: string)
    returns (t: State)
    requires Reachable(s) && Ready(s, sid) && s.sessions[sid] == Sent(part, rest) && Fits(part + rest) && part != []
    requires xid !in Ids(part + rest) && xid !in Passed(s, sid, part, rest).rows
    ensures Reachable(t) && Drained(s, t, sid, IdSet(part + rest), xid)
    decreases |part + rest|, 0
  {
    hide SendNext, Reachable, Passed, Ids, IdSet, Fits, Drained;
    IdsConcat(part, rest);
    PassedReachable(s, sid, part, rest);
    RestFits(part, rest);
    PassedSends(s, sid, part, rest);
    assert xid !in Ids(rest);
    t := Drain(Passed(s, sid, part, rest), sid, rest, xid);
    ChainDrained(s, t, sid, part, rest, xid);
  }

  lemma {:induction false} ChainDrained(s: State, t: State, sid: nat, part: seq<Notification>, rest: seq<Notification>,
                                        xid: string)
    requires Ready(s, sid) && s.sessions[sid] == Sent(part, rest)
    requires Drained(Passed(s, sid, part, rest), t, sid, IdSet(rest), xid)
    requires Passed(s, sid, part, rest).dispatched == s.dispatched
    ensures Drained(s, t, sid, IdSet(part + rest), xid)
  {
    PassDrains(s, sid, part, rest, xid);
    IdsConcat(part, rest);
    hide Passed, IdSet, Ids;
  }

  lemma {:induction false} RestFits(part: seq<Notification>, rest: seq<Notification>)
    requires Fits(part + rest)
    ensures Fits(rest)
  {
    assert forall i :: 0 <= i < |rest| ==> rest[i] == (part + rest)[|part| + i];
  }

  lemma {:induction false} PassedSends(s: State, sid: nat, part: seq<Notification>, rest: seq<Notification>)
    requires Ready(s, sid) && s.sessions[sid] == Sent(part, rest)
    ensures Passed(s, sid, part, rest).sessions[sid] == SendNext(rest)
  {
  }

  // ----- The notification that comes back ------------------------------------------------------

  lemma {:induction false} DropsOlder(rows: seq<string>, h: string, xid: string)
    requires h in rows && forall i, j :: 0 <= i < |rows| && 0 <= j < |rows| && rows[i] == h && rows[j] == xid ==> j < i
    ensures xid !in DropBefore(rows, h)
  {
    if rows[0] != h {
      var rest := rows[1..];
      assert h in rest;
      forall i, j | 0 <= i < |rest| && 0 <= j < |rest| && rest[i] == h && rest[j] == xid
        ensures j < i
      {
        assert rows[i + 1] == h && rows[j + 1] == xid;
      }
      DropsOlder(rest, h, xid);
    } else {
      assert forall j :: 0 <= j < |rows| ==> rows[j] != xid;
    }
  }

  /** Recording a batch whose head is newer than an id deletes the row of the id. */
  lemma {:induction false} RowIsDeleted(rows: seq<string>, part: seq<Notification>, xid: string, born: map<string, nat>)
    requires Sorted(rows, born) && part != [] && xid !in Ids(part)
    requires xid in born && (part[0].msgId in rows ==> Order(xid, born) < Order(part[0].msgId, born))
    ensures xid !in AfterSeen(rows, part)
  {
    var h, unseen := part[0].msgId, Ids(SeenState.Fresh(RowSet(rows), part));
    UnseenAreOfBatch(RowSet(rows), part);
    var all := rows + unseen;
    HeadIsRecorded(rows, part);
    assert forall k :: 0 <= k < |unseen| ==> unseen[k] in unseen;
    assert forall k :: 0 <= k < |all| && all[k] == xid ==> k < |rows|;
    forall i, j | 0 <= i < |all| && 0 <= j < |all| && all[i] == h && all[j] == xid
      ensures j < i
    {
      if i < |rows| {
        assert rows[i] == h && rows[j] == xid;
      }
    }
    DropsOlder(all, h, xid);
  }

  lemma {:induction false} HeadIsRecorded(rows: seq<string>, part: seq<Notification>)
    requires part != []
    ensures part[0].msgId in rows + Ids(SeenState.Fresh(RowSet(rows), part))
  {
    if part[0].msgId !in rows {
      var unseen := SeenState.Fresh(RowSet(rows), part);
      assert unseen[0] == part[0];
      assert Ids(unseen)[0] == part[0].msgId;
    }
  }

  lemma {:induction false} LiveHas(es: seq<Entry>, now: int, k: nat)
    requires k < |es| && IsLive(es, now, k)
    ensures es[k] in Live(es, now)
  {
    if k > 0 {
      assert es[1..][k - 1] == es[k] && es[1..][k..] == es[k + 1..];
      LiveHas(es[1..], now, k - 1);
    }
  }

  lemma {:induction false} LiveOfOnly(es: seq<Entry>, now: int, x: Entry)
    requires x in es && !Expired(x, now) && x.meta.replaceTag != ""
    requires forall y :: y in es ==> y == x || Expired(y, now)
    ensures Live(es, now) == [x]
  {
    var live := Live(es, now);
    LiveAreUnique(es, now);
    LastIsLive(es, now, x);
    assert forall i :: 0 <= i < |live| ==> live[i] in live;
    assert forall i :: 0 <= i < |live| ==> live[i] == x;
    assert |live| > 1 ==> SameKey(live[0], live[1]);
    assert live == [live[0]];
  }

  lemma {:induction false} LastIsLive(es: seq<Entry>, now: int, x: Entry)
    requires x in es && !Expired(x, now)
    requires forall y :: y in es ==> y == x || Expired(y, now)
    ensures Live(es, now) != []
  {
    if es[0] == x && !Superseded(x, es[1..], now) {
    } else {
      assert x in es[1..];
      LastIsLive(es[1..], now, x);
    }
  }

  /** The oldest visible entry of a channel. */
  ghost predicate IsOldest(es: seq<Entry>, now: int, i: nat) {
    && i < |es| && !Expired(es[i], now)
    && forall j :: 0 <= j < i ==> Expired(es[j], now)
  }

  /** What is visible once an entry supersedes the oldest visible one: all the others. */
  lemma {:induction false} Successor(es: seq<Entry>, now: int, i: nat, e: Entry)
    requires KeyUnique(es) && IsOldest(es, now, i) && SameKey(es[i], e) && !Expired(e, now) && e != es[i]
    ensures var live := Live(es + [e], now);
            && live != [] && es[i] !in live
            && (forall y :: y in es + [e] && !Expired(y, now) && y != es[i] ==> y in live)
            && (live[0] == e || exists k :: i < k < |es| && es[k] == live[0])
  {
    var all, x := es + [e], es[i];
    var live := Live(all, now);
    LiveAreUnique(all, now);
    assert all[|es|] == e;
    LiveHas(all, now, |es|);
    var q :| 0 <= q < |live| && live[q] == e;
    assert forall p :: 0 <= p < |live| && live[p] == x ==> p < q || q < p;
    forall y | y in all && !Expired(y, now) && y != x
      ensures y in live
    {
      OthersStayLive(es, now, i, e, y);
    }
    assert live[0] in all && !Expired(live[0], now);
  }

  lemma {:induction false} OthersStayLive(es: seq<Entry>, now: int, i: nat, e: Entry, y: Entry)
    requires KeyUnique(es) && i < |es| && SameKey(es[i], e) && !Expired(e, now)
    requires y in es + [e] && !Expired(y, now) && y != es[i]
    ensures y in Live(es + [e], now)
  {
    var all := es + [e];
    var k :| 0 <= k < |all| && all[k] == y;
    if k < |es| {
      var later := all[k + 1..];
      assert forall j :: 0 <= j < |later| ==> later[j] == all[k + 1 + j];
    }
    LiveHas(all, now, k);
  }

  lemma {:induction false} BatchAfter(s: State, i: nat, e: Entry)
    requires Inv(s) && Enabled(s, Append(e)) && IsOldest(s.entries, s.now, i)
    requires SameKey(s.entries[i], e) && !Expired(e, s.now)
    ensures var ns, x := Notifs(Live(s.entries + [e], s.now)), s.entries[i];
            && ns != [] && x.notif.msgId !in Ids(ns) && x.notif.msgId in s.born
            && (forall y :: y in s.entries + [e] && !Expired(y, s.now) && y != x ==> y.notif.msgId in IdSet(ns))
            && (ns[0].msgId in s.born ==> Order(x.notif.msgId, s.born) < Order(ns[0].msgId, s.born))
  {
    var es, x := s.entries, s.entries[i];
    assert EntryIds(es)[i] == x.notif.msgId;
    Successor(es, s.now, i, e);
    LiveAreUnique(es + [e], s.now);
    var live := Live(es + [e], s.now);
    hide Live, KeyUnique, SessionInv, AcksInv, DispatchInv, TableInv, Remembered, VisibleIds;
    IdIsAlone(es, i, e, live, s.born);
    if live[0] != e {
      var k :| i < k < |es| && es[k] == live[0];
      assert EntryIds(es)[k] == live[0].notif.msgId;
    }
  }

  lemma {:induction false} IdIsAlone(es: seq<Entry>, i: nat, e: Entry, live: seq<Entry>, born: map<string, nat>)
    requires Sorted(EntryIds(es), born) && i < |es| && es[i].notif.msgId != e.notif.msgId
    requires es[i] !in live && forall y :: y in live ==> y in es + [e]
    ensures es[i].notif.msgId !in Ids(Notifs(live))
  {
    var ids := EntryIds(es);
    forall k | 0 <= k < |live|
      ensures live[k].notif.msgId != es[i].notif.msgId
    {
      assert live[k] in live;
      if live[k] in es {
        var j :| 0 <= j < |es| && es[j] == live[k];
        assert ids[j] == live[k].notif.msgId && ids[i] == es[i].notif.msgId && j != i;
      }
    }
  }

  lemma {:induction false} FitsOf(es: seq<Entry>, now: int)
    requires forall y :: y in es && !Expired(y, now) ==> NotificationSize(y.notif) <= MAX_PAYLOAD_SIZE
    ensures Fits(Notifs(Live(es, now)))
  {
    LiveAreUnique(es, now);
    var live := Live(es, now);
    assert forall k :: 0 <= k < |live| ==> live[k] in live && !Expired(live[k], now);
  }

  /** The state in which the client, newly connected, is sent the batch after an append. */
  function Resent(s: State, e: Entry, sid: nat): (r: State) {
    var es := s.entries + [e];
    s.(entries := es, born := s.born[e.notif.msgId := |s.born|],
       sessions := s.sessions[sid := SendNext(Notifs(Live(es, s.now)))], live := s.live + {sid},
       conn := Some(sid), handling := None)
  }

  lemma {:induction false} ResentReachable(s: State, e: Entry, sid: nat)
    requires Reachable(s) && Enabled(s, Append(e)) && sid !in s.sessions
    ensures Reachable(Resent(s, e, sid)) && Ready(Resent(s, e, sid), sid)
  {
    hide Reachable, Live, SendNext;
    StepReachable(s, Append(e));
    var s1 := Do(s, Append(e));
    StepReachable(s1, Connect(sid));
    var s2 := Do(s1, Connect(sid));
    StepReachable(s2, Prepare(sid));
    var ns := Notifs(Live(s2.entries, s2.now));
    assert s.sessions[sid := Idle][sid := SendNext(ns)] == s.sessions[sid := SendNext(ns)];
  }

  /** An id without a row that is alone in a batch is dispatched when it has an addressee. */
  lemma {:induction false} SentAlone(s: State, sid: nat, n: Notification)
    requires Reachable(s) && Ready(s, sid) && s.sessions[sid] == Idle
    requires Notifs(Live(s.entries, s.now)) == [n] && NotificationSize(n) <= MAX_PAYLOAD_SIZE && n.msgId !in s.rows
    ensures exists t :: Reachable(t) && t.dispatched == s.dispatched + [n.msgId]
  {
    OneIsSent(n);
    OneIsPicked(s.rows, n);
    hide Reachable, Live, SendNext, Fresh, Picked, AfterSeen, NotificationSize;
    StepReachable(s, Prepare(sid));
    var s1 := Do(s, Prepare(sid));
    HandledReachable(s1, sid, [n], [], {n.msgId});
    assert Handled(s1, sid, [n], [], {n.msgId}).dispatched == s.dispatched + [n.msgId];
  }

  lemma {:induction false} OneIsPicked(rows: seq<string>, n: Notification)
    requires n.msgId !in rows
    ensures Picked(Ids(SeenState.Fresh(RowSet(rows), [n])), {n.msgId}) == [n.msgId]
  {
    assert [n][1..] == [];
    assert SeenState.Fresh(RowSet(rows), [n]) == [n];
    assert Ids([n]) == [n.msgId];
    assert [n.msgId][1..] == [];
  }

  lemma {:induction false} HeadRowIsDeleted(s: State, part: seq<Notification>, rest: seq<Notification>, xid: string)
    requires TableInv(s.rows, s.accepted, s.born)
    requires part != [] && xid !in Ids(part + rest) && xid in s.born
    requires part[0].msgId in s.born ==> Order(xid, s.born) < Order(part[0].msgId, s.born)
    ensures xid !in AfterSeen(s.rows, part)
  {
    IdsConcat(part, rest);
    SuffixSorted(s.rows, s.accepted, s.born);
    hide AfterSeen, TableInv, IsSuffix;
    RowIsDeleted(s.rows, part, xid, s.born);
  }

  lemma {:induction false} PassedRows(s: State, sid: nat, part: seq<Notification>, rest: seq<Notification>)
    requires Ready(s, sid) && s.sessions[sid] == Sent(part, rest)
    ensures Passed(s, sid, part, rest).rows == AfterSeen(s.rows, part)
  {
  }

  /** With everything else that is visible dropped, the entry is the only visible one. */
  lemma {:induction false} ComesBack(s: State, t: State, sid: nat, ns: seq<Notification>, x: Entry)
    requires Drained(s, t, sid, IdSet(ns), x.notif.msgId) && x in s.entries && !Expired(x, s.now)
    requires x.meta.replaceTag != "" && x.notif.msgId !in Ids(ns)
    requires forall y :: y in s.entries && !Expired(y, s.now) && y != x ==> y.notif.msgId in IdSet(ns)
    ensures Notifs(Live(t.entries, t.now)) == [x.notif]
  {
    LiveOfOnly(t.entries, t.now, x);
  }

  /** The guard is needed: from every reachable state, an append that supersedes the oldest visible
      entry can make the client dispatch that entry once more.  The append hides it; delivering what is
      visible instead deletes its seen row; and dropping that makes it visible again. */
  lemma {:induction false} UnguardedAppendDispatchesAgain(s: State, i: nat, e: Entry, sid: nat)
    requires GuardedReachable(s) && Enabled(s, Append(e)) && IsOldest(s.entries, s.now, i)
    requires SameKey(s.entries[i], e) && !Expired(e, s.now) && sid !in s.sessions
    requires forall y :: y in s.entries + [e] && !Expired(y, s.now) ==> NotificationSize(y.notif) <= MAX_PAYLOAD_SIZE
    ensures exists t :: Reachable(t) && t.dispatched == s.dispatched + [s.entries[i].notif.msgId]
  {
    GuardedIsReachable(s);
    BatchAfter(s, i, e);
    var es, x := s.entries + [e], s.entries[i];
    var ns := Notifs(Live(es, s.now));
    FitsOf(es, s.now);
    SendsFirst(ns);
    ResentReachable(s, e, sid);
    var s1 := Resent(s, e, sid);
    var Sent(part, rest) := s1.sessions[sid];
    HeadRowIsDeleted(s, part, rest, x.notif.msgId);
    var t := DrainRest(s1, sid, part, rest, x.notif.msgId) by {
      PassedRows(s1, sid, part, rest);
    }
    ComesBack(s1, t, sid, ns, x);
    SentAlone(t, sid, x.notif);
  }

  /** So two requests that overlap, both appending after neither saw the other, can make the client
      dispatch the notification of the first one twice. */
  lemma {:induction false} OverlapDispatchesTwice(x: Entry, e: Entry)
    requires SameKey(x, e) && x.notif.msgId != e.notif.msgId && !Expired(x, 0) && !Expired(e, 0)
    requires NotificationSize(x.notif) <= MAX_PAYLOAD_SIZE && NotificationSize(e.notif) <= MAX_PAYLOAD_SIZE
    ensures exists t :: Reachable(t) && t.dispatched == [x.notif.msgId, x.notif.msgId]
  {
    var s := FirstDelivered(x);
    UnguardedAppendDispatchesAgain(s, 0, e, 1);
    var t :| Reachable(t) && t.dispatched == s.dispatched + [x.notif.msgId];
  }

  lemma {:induction false} FirstDelivered(x: Entry) returns (s: State)
    requires !Expired(x, 0) && NotificationSize(x.notif) <= MAX_PAYLOAD_SIZE
    ensures GuardedReachable(s) && s.entries == [x] && s.now == 0 && s.dispatched == [x.notif.msgId]
    ensures s.born.Keys == {x.notif.msgId} && s.sessions.Keys == {0}
  {
    var n := x.notif;
    hide GuardedReachable, Reachable, SendNext, Live, Fresh, AfterSeen, Picked, NotificationSize, Inv;
    var sent := FirstSent(x);
    GuardedIsReachable(sent);
    HandledReachable(sent, 0, [n], [], {n.msgId});
    OneIsPicked([], n);
    s := Handled(sent, 0, [n], [], {n.msgId});
    assert s.dispatched == [n.msgId];
  }

  lemma {:induction false} FirstSent(x: Entry) returns (s: State)
    requires !Expired(x, 0) && NotificationSize(x.notif) <= MAX_PAYLOAD_SIZE
    ensures GuardedReachable(s) && Ready(s, 0) && s.sessions == map[0 := Sent([x.notif], [])]
    ensures s.entries == [x] && s.now == 0 && s.rows == [] && s.dispatched == [] && s.born.Keys == {x.notif.msgId}
  {
    hide GuardedReachable, Reachable, SendNext, Live, NotificationSize;
    OneIsSent(x.notif);
    InitReachable();
    GuardedStepReachable(INIT, Append(x));
    var s1 := Do(INIT, Append(x));
    GuardedStepReachable(s1, Connect(0));
    var s2 := Do(s1, Connect(0));
    assert s2.entries == [x];
    LiveOfOne(x, 0);
    GuardedStepReachable(s2, Prepare(0));
    s := Do(s2, Prepare(0));
  }

  lemma {:induction false} LiveOfOne(x: Entry, now: int)
    requires !Expired(x, now)
    ensures Notifs(Live([x], now)) == [x.notif]
  {
    assert [x][1..] == [];
    assert Live([x], now) == [x];
  }
}
