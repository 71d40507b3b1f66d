/** Delivery of the notifications of one channel of a device, from the store through the server's
    sessions to the client, as a transition system.

    The store calls of concurrent API requests, any number of server sessions of the device, the
    client's connections, and losses at any point interleave freely.  The client handles one message
    at a time; what it records survives restarts. */
module UnicastDelivery {
  import opened Sequences
  import opened Messages
  import opened Store
  import opened SeenState

  /** Where a server session is in its exchange: nothing to do, waiting for the ack of a part, or
      with that ack on its way from the client. */
  datatype Phase =
    | Idle
    | Sent(part: seq<Notification>, rest: seq<Notification>)
    | Acked(part: seq<Notification>, rest: seq<Notification>)

  datatype State = State(
    now: int,
    entries: seq<Entry>,
    sessions: map<nat, Phase>,
    live: set<nat>,                        // sessions whose server side still runs
    conn: Option<nat>,                     // the session the client is connected to
    handling: Option<seq<Notification>>,   // recorded by the client but not yet acknowledged
    rows: seq<string>,
    dispatched: seq<string>,
    born: map<string, nat>,                // history: position in append order of every id
    accepted: seq<string>)                 // history: every id the seen table ever took, in order

  const INIT := State(0, [], map[], {}, None, None, [], [], map[], [])

  datatype Step =
    | Tick(d: nat)
    | Scrub(appId: string, replaceTag: string)
    | Append(e: Entry)
    | Connect(sid: nat)
    | Disconnect
    | EndSession(sid: nat)
    | Prepare(sid: nat)
    | Receive(sid: nat)
    | Ack(sid: nat, addressed: set<string>, stays: bool)
    | ServerAck(sid: nat)

  /** The session sends the next part, if anything is left. */
  function SendNext(ns: seq<Notification>): (p: Phase) {
    if ns == [] then Idle else Sent(NextPart(ns).0, NextPart(ns).1)
  }

  predicate Enabled(s: State, step: Step) {
    match step
    case Tick(_) => true
    case Scrub(_, _) => true
    case Append(e) => e.notif.msgId !in s.born
    case Connect(sid) => sid !in s.sessions
    case Disconnect => true
    case EndSession(sid) => sid in s.live
    case Prepare(sid) => sid in s.live && sid in s.sessions && s.sessions[sid].Idle?
    case Receive(sid) => s.conn == Some(sid) && sid in s.sessions && s.sessions[sid].Sent? && s.handling.None?
    case Ack(sid, _, _) => s.conn == Some(sid) && sid in s.sessions && s.sessions[sid].Sent? && s.handling.Some?
    case ServerAck(sid) => sid in s.live && sid in s.sessions && s.sessions[sid].Acked?
  }

  /** `Append` and `Scrub` are the store calls of API requests.  `Ack` writes the ack and then
      dispatches the notifications that have an addressee; the client may break down meanwhile, so
      `addressed` is any set.  A session that has ended may have left a part for the client to read. */
  function Do(s: State, step: Step): (r: State)
    requires Enabled(s, step)
  {
    match step
    case Tick(d) => s.(now := s.now + d)
    case Scrub(appId, replaceTag) => s.(entries := Unmatched(Live(s.entries, s.now), appId, replaceTag))
    case Append(e) => s.(entries := s.entries + [e], born := s.born[e.notif.msgId := |s.born|])
    case Connect(sid) =>
      s.(sessions := s.sessions[sid := Idle], live := s.live + {sid}, conn := Some(sid), handling := None)
    case Disconnect => s.(conn := None, handling := None)
    case EndSession(sid) => s.(live := s.live - {sid})
    case Prepare(sid) => s.(sessions := s.sessions[sid := SendNext(Notifs(Live(s.entries, s.now)))])
    case Receive(sid) =>
      var part := s.sessions[sid].part;
      var acc := Fresh(RowSet(s.rows), part);
      s.(rows := AfterSeen(s.rows, part), accepted := s.accepted + Ids(acc), handling := Some(acc))
    case Ack(sid, addressed, stays) =>
      var Sent(part, rest) := s.sessions[sid];
      s.(sessions := s.sessions[sid := Acked(part, rest)],
         dispatched := s.dispatched + Picked(Ids(s.handling.value), addressed),
         handling := None,
         conn := if stays then s.conn else None)
    case ServerAck(sid) =>
      var Acked(part, rest) := s.sessions[sid];
      s.(entries := WithoutIds(s.entries, IdSet(part)), sessions := s.sessions[sid := SendNext(rest)])
  }

  function Picked(ids: seq<string>, chosen: set<string>): (r: seq<string>) {
    if ids == [] then []
    else if ids[0] in chosen then [ids[0]] + Picked(ids[1..], chosen)
    else Picked(ids[1..], chosen)
  }

  /** An append is guarded when no stored entry has the key of the new one.  This is what a request
      that is handled without another one in between makes sure of. */
  ghost predicate Guarded(s: State, step: Step) {
    step.Append? ==> forall x :: x in s.entries ==> !SameKey(x, step.e)
  }

  ghost predicate IsRun(run: seq<State>, steps: seq<Step>) {
    && |run| == |steps| + 1 && run[0] == INIT
    && forall i :: 0 <= i < |steps| ==> Enabled(run[i], steps[i]) && run[i + 1] == Do(run[i], steps[i])
  }

  ghost predicate IsGuardedRun(run: seq<State>, steps: seq<Step>) {
    IsRun(run, steps) && forall i :: 0 <= i < |steps| ==> Guarded(run[i], steps[i])
  }

  // ----- Order of ids --------------------------------------------------------------------------

  ghost function Order(id: string, born: map<string, nat>): (r: int) {
    if id in born then born[id] else -1
  }

  ghost function LastOrder(ids: seq<string>, born: map<string, nat>): (r: int) {
    if ids == [] then -1 else Order(ids[|ids| - 1], born)
  }

  /** The ids are in append order, hence distinct. */
  ghost predicate Sorted(ids: seq<string>, born: map<string, nat>) {
    && (forall i :: 0 <= i < |ids| ==> ids[i] in born)
    && (forall i, j :: 0 <= i < j < |ids| ==> Order(ids[i], born) < Order(ids[j], born))
  }

  lemma {:induction false} SortedDistinct(ids: seq<string>, born: map<string, nat>)
    requires Sorted(ids, born)
    ensures Distinct(ids)
    ensures forall id :: id in ids ==> id in born && Order(id, born) <= LastOrder(ids, born)
  {
  }

  lemma {:induction false} SortedConcat(a: seq<string>, b: seq<string>, born: map<string, nat>)
    requires Sorted(a, born) && Sorted(b, born)
    requires forall id :: id in b ==> LastOrder(a, born) < Order(id, born)
    ensures Sorted(a + b, born)
  {
    SortedDistinct(a, born);
    forall i, j | 0 <= i < j < |a + b|
      ensures Order((a + b)[i], born) < Order((a + b)[j], born)
    {
      if i < |a| <= j {
        assert (a + b)[i] in a && (a + b)[j] in b;
      }
    }
  }

  lemma {:induction false} SortedGrows(ids: seq<string>, born: map<string, nat>, id: string, n: nat)
    requires Sorted(ids, born) && id !in born
    ensures Sorted(ids, born[id := n])
    ensures LastOrder(ids, born[id := n]) == LastOrder(ids, born)
  {
  }

  lemma {:induction false} PickedFacts(ids: seq<string>, chosen: set<string>, born: map<string, nat>)
    requires Sorted(ids, born)
    ensures Sorted(Picked(ids, chosen), born)
    ensures forall id :: id in Picked(ids, chosen) ==> id in ids
  {
    if ids != [] {
      PickedFacts(ids[1..], chosen, born);
      if ids[0] in chosen {
        forall id | id in Picked(ids[1..], chosen)
          ensures Order(ids[0], born) < Order(id, born)
        {
          assert id in ids[1..];
        }
        SortedConcat([ids[0]], Picked(ids[1..], chosen), born);
      }
    }
  }

  lemma {:induction false} FreshFacts(seen: set<string>, ns: seq<Notification>, born: map<string, nat>)
    requires Sorted(Ids(ns), born)
    ensures var unseen := Ids(Fresh(seen, ns));
            && Sorted(unseen, born)
            && (forall id :: id in unseen ==> id in Ids(ns) && id !in seen)
            && (forall id :: id in Ids(ns) ==> id in seen || id in unseen)
    decreases |ns|
  {
    if ns != [] {
      var id0 := ns[0].msgId;
      assert Ids(ns) == [id0] + Ids(ns[1..]);
      assert Sorted(Ids(ns[1..]), born);
      if id0 in seen {
        FreshFacts(seen, ns[1..], born);
      } else {
        var rest := Fresh(seen + {id0}, ns[1..]);
        FreshFacts(seen + {id0}, ns[1..], born);
        assert Ids([ns[0]] + rest) == [id0] + Ids(rest);
        forall id | id in Ids(rest)
          ensures Order(id0, born) < Order(id, born)
        {
          assert id in Ids(ns[1..]);
        }
        assert Sorted([id0], born);
        hide Sorted;
        SortedConcat([id0], Ids(rest), born);
      }
    }
  }

  /** Deleting the rows before `h` keeps a suffix: the rows not older than `h`. */
  lemma {:induction false} DropBeforeFacts(rows: seq<string>, h: string, born: map<string, nat>)
    requires Sorted(rows, born) && h in rows
    ensures var kept := DropBefore(rows, h);
            && IsSuffix(kept, rows) && kept != []
            && (forall id :: id in kept <==> id in rows && Order(h, born) <= Order(id, born))
  {
    var r0 := rows[0];
    assert rows == [r0] + rows[1..];
    if r0 != h {
      DropBeforeFacts(rows[1..], h, born);
      var i :| 0 <= i < |rows| && rows[i] == h;
      assert Order(r0, born) < Order(h, born);
      SuffixTrans(DropBefore(rows, h), rows[1..], rows);
    } else {
      assert forall i :: 0 <= i < |rows| ==> Order(h, born) <= Order(rows[i], born);
    }
  }

  ghost predicate IsSuffix(a: seq<string>, b: seq<string>) {
    |a| <= |b| && a == b[|b| - |a|..]
  }

  lemma {:induction false} SuffixAppend(a: seq<string>, b: seq<string>, c: seq<string>)
    requires IsSuffix(a, b)
    ensures IsSuffix(a + c, b + c)
  {
  }

  lemma {:induction false} SuffixTrans(a: seq<string>, b: seq<string>, c: seq<string>)
    requires IsSuffix(a, b) && IsSuffix(b, c)
    ensures IsSuffix(a, c)
  {
  }

  lemma {:induction false} SuffixSorted(a: seq<string>, b: seq<string>, born: map<string, nat>)
    requires IsSuffix(a, b) && Sorted(b, born)
    ensures Sorted(a, born)
    ensures forall id :: id in a ==> id in b
    ensures a != [] ==> LastOrder(a, born) == LastOrder(b, born)
  {
  }

  // ----- Visible entries -----------------------------------------------------------------------

  ghost function VisibleIds(es: seq<Entry>, now: int): (r: set<string>) {
    set e | e in es && !Expired(e, now) :: e.notif.msgId
  }

  ghost function EntryIds(es: seq<Entry>): (ids: seq<string>)
    ensures |ids| == |es| && forall i :: 0 <= i < |es| ==> ids[i] == es[i].notif.msgId
  {
    Ids(Notifs(es))
  }

  lemma {:induction false} UnexpiredSubset(es: seq<Entry>, now: int)
    ensures forall e :: e in Unexpired(es, now) ==> e in es
  {
    if es != [] {
      UnexpiredSubset(es[1..], now);
    }
  }

  lemma {:induction false} UnexpiredFacts(es: seq<Entry>, now: int, born: map<string, nat>)
    requires Sorted(EntryIds(es), born)
    ensures Sorted(EntryIds(Unexpired(es, now)), born)
    ensures forall id :: id in EntryIds(Unexpired(es, now)) <==> id in VisibleIds(es, now)
  {
    if es == [] {
    } else {
      var rest := Unexpired(es[1..], now);
      assert EntryIds(es)[1..] == EntryIds(es[1..]);
      UnexpiredFacts(es[1..], now, born);
      if !Expired(es[0], now) {
        UnexpiredSubset(es[1..], now);
        ConsSorted(es, rest, born);
        assert EntryIds([es[0]] + rest) == [es[0].notif.msgId] + EntryIds(rest);
      }
      hide VisibleIds, Sorted;
    }
  }

  lemma {:induction false} UnmatchedSorted(es: seq<Entry>, appId: string, replaceTag: string, born: map<string, nat>)
    requires Sorted(EntryIds(es), born)
    ensures Sorted(EntryIds(Unmatched(es, appId, replaceTag)), born)
  {
    if es != [] {
      assert EntryIds(es)[1..] == EntryIds(es[1..]);
      UnmatchedSorted(es[1..], appId, replaceTag, born);
      UnmatchedSubset(es[1..], appId, replaceTag);
      ConsSorted(es, Unmatched(es[1..], appId, replaceTag), born);
    }
  }

  lemma {:induction false} WithoutIdsSorted(es: seq<Entry>, ids: set<string>, born: map<string, nat>)
    requires Sorted(EntryIds(es), born)
    ensures Sorted(EntryIds(WithoutIds(es, ids)), born)
  {
    if es != [] {
      assert EntryIds(es)[1..] == EntryIds(es[1..]);
      WithoutIdsSorted(es[1..], ids, born);
      WithoutIdsSubset(es[1..], ids);
      ConsSorted(es, WithoutIds(es[1..], ids), born);
    }
  }

  lemma {:induction false} ConsSorted(es: seq<Entry>, rest: seq<Entry>, born: map<string, nat>)
    requires es != [] && Sorted(EntryIds(es), born) && Sorted(EntryIds(rest), born)
    requires forall e :: e in rest ==> e in es[1..]
    ensures Sorted(EntryIds([es[0]] + rest), born)
  {
    var id0 := es[0].notif.msgId;
    assert EntryIds([es[0]] + rest) == [id0] + EntryIds(rest);
    forall id | id in EntryIds(rest)
      ensures Order(id0, born) < Order(id, born)
    {
      var k :| 0 <= k < |rest| && EntryIds(rest)[k] == id;
      assert rest[k] in rest;
      var i :| 0 <= i < |es[1..]| && es[1..][i] == rest[k];
      assert EntryIds(es)[1 + i] == id && EntryIds(es)[0] == id0;
    }
    SortedConcat([id0], EntryIds(rest), born);
  }

  // ----- The invariant -------------------------------------------------------------------------

  function Pending(p: Phase): (r: seq<Notification>) {
    if p.Idle? then [] else p.part + p.rest
  }

  /** Of the ids not newer than the last accepted one, all are still in the seen table. */
  ghost predicate Remembered(ids: set<string>, rows: seq<string>, accepted: seq<string>, born: map<string, nat>) {
    forall id :: id in ids ==> id in born && (Order(id, born) <= LastOrder(accepted, born) ==> id in rows)
  }

  /** Of the visible ids, none that is not newer than the pending ones is missing among them. */
  ghost predicate Closed(visible: set<string>, pending: seq<string>, born: map<string, nat>) {
    forall id :: id in visible && Order(id, born) <= LastOrder(pending, born) ==> id in pending
  }

  ghost predicate StoreInv(entries: seq<Entry>, born: map<string, nat>) {
    && Sorted(EntryIds(entries), born)
    && KeyUnique(entries)
    && forall id :: id in born ==> born[id] < |born|
  }

  ghost predicate TableInv(rows: seq<string>, accepted: seq<string>, born: map<string, nat>) {
    && Sorted(accepted, born)
    && IsSuffix(rows, accepted)
    && (accepted != [] ==> rows != [])
  }

  /** What the session the client is connected to may still send. */
  ghost function Current(s: State): (r: seq<string>) {
    if s.conn.Some? && s.conn.value in s.sessions then Ids(Pending(s.sessions[s.conn.value])) else []
  }

  ghost predicate SessionInv(s: State) {
    && Sorted(Current(s), s.born)
    && Remembered(RowSet(Current(s)), s.rows, s.accepted, s.born)
    && Closed(VisibleIds(s.entries, s.now), Current(s), s.born)
  }

  ghost predicate AcksInv(s: State) {
    && (forall sid :: sid in s.sessions && s.sessions[sid].Acked? ==>
          IdSet(s.sessions[sid].part) <= RowSet(s.accepted))
    && (s.handling.Some? ==>
          && s.conn.Some? && s.conn.value in s.sessions && s.sessions[s.conn.value].Sent?
          && IdSet(s.sessions[s.conn.value].part) <= RowSet(s.accepted))
  }

  ghost function Undispatched(s: State): (r: seq<string>) {
    if s.handling.Some? then Ids(s.handling.value) else []
  }

  ghost predicate DispatchInv(s: State) {
    && Sorted(s.dispatched + Undispatched(s), s.born)
    && forall id :: id in s.dispatched + Undispatched(s) ==> id in s.accepted
  }

  ghost predicate Inv(s: State) {
    && StoreInv(s.entries, s.born)
    && TableInv(s.rows, s.accepted, s.born)
    && Remembered(VisibleIds(s.entries, s.now), s.rows, s.accepted, s.born)
    && SessionInv(s)
    && AcksInv(s)
    && DispatchInv(s)
  }

  // ----- What the parts of the invariant depend on ----------------------------------------------

  lemma {:induction false} DispatchFrame(s: State, t: State)
    requires DispatchInv(s)
    requires t.dispatched == s.dispatched && t.handling == s.handling && t.born == s.born && t.accepted == s.accepted
    ensures DispatchInv(t)
  {
    assert Undispatched(t) == Undispatched(s);
  }

  lemma {:induction false} AcksFrame(s: State, t: State)
    requires AcksInv(s)
    requires t.sessions == s.sessions && t.conn == s.conn && t.handling == s.handling && t.accepted == s.accepted
    ensures AcksInv(t)
  {
  }

  lemma {:induction false} SessionFrame(s: State, t: State)
    requires SessionInv(s)
    requires Current(t) == Current(s) && t.born == s.born && t.rows == s.rows && t.accepted == s.accepted
    requires VisibleIds(t.entries, t.now) <= VisibleIds(s.entries, s.now)
    ensures SessionInv(t)
  {
    hide VisibleIds, Current, Sorted, Remembered, LastOrder;
  }

  // ----- Steps that only shrink what is visible ------------------------------------------------

  lemma {:induction false} Shrink(s: State, t: State)
    requires Inv(s) && t == s.(now := t.now, entries := t.entries)
    requires StoreInv(t.entries, t.born)
    requires VisibleIds(t.entries, t.now) <= VisibleIds(s.entries, s.now)
    ensures Inv(t)
  {
    assert Current(t) == Current(s) && Undispatched(t) == Undispatched(s);
  }

  lemma {:induction false} TickKeeps(s: State, d: nat)
    requires Inv(s)
    ensures Inv(Do(s, Tick(d)))
  {
    Shrink(s, Do(s, Tick(d)));
  }

  lemma {:induction false} ScrubKeeps(s: State, appId: string, replaceTag: string)
    requires Inv(s)
    ensures Inv(Do(s, Step.Scrub(appId, replaceTag)))
  {
    hide Live, Unexpired, Unmatched, Sorted;
    var live := Live(s.entries, s.now);
    LiveOfUnique(s.entries, s.now);
    LiveAreUnique(s.entries, s.now);
    UnexpiredFacts(s.entries, s.now, s.born);
    UnmatchedSorted(live, appId, replaceTag, s.born);
    UnmatchedUnique(live, appId, replaceTag);
    UnmatchedSubset(live, appId, replaceTag);
    Shrink(s, Do(s, Step.Scrub(appId, replaceTag)));
  }

  // ----- Appending -----------------------------------------------------------------------------

  lemma {:induction false} RememberedGrows(ids: set<string>, more: set<string>, rows: seq<string>,
                                           accepted: seq<string>, born: map<string, nat>, id: string)
    requires Remembered(ids, rows, accepted, born) && more <= ids + {id}
    requires Sorted(accepted, born) && id !in born && forall x :: x in born ==> born[x] < |born|
    ensures Remembered(more, rows, accepted, born[id := |born|])
  {
    SortedGrows(accepted, born, id, |born|);
  }

  lemma {:induction false} StoreGrows(entries: seq<Entry>, born: map<string, nat>, e: Entry)
    requires StoreInv(entries, born) && e.notif.msgId !in born
    requires forall x :: x in entries ==> !SameKey(x, e)
    ensures StoreInv(entries + [e], born[e.notif.msgId := |born|])
    ensures forall now :: VisibleIds(entries + [e], now) <= VisibleIds(entries, now) + {e.notif.msgId}
  {
    assert EntryIds(entries + [e]) == EntryIds(entries) + [e.notif.msgId];
  }

  lemma {:induction false} AppendKeeps(s: State, e: Entry)
    requires Inv(s) && Enabled(s, Append(e)) && Guarded(s, Append(e))
    ensures Inv(Do(s, Append(e)))
  {
    hide Sorted, Remembered, Closed, VisibleIds, RowSet, IdSet, StoreInv, IsSuffix, SessionInv, AcksInv, DispatchInv;
    var id, t := e.notif.msgId, Do(s, Append(e));
    StoreGrows(s.entries, s.born, e);
    BornBelow(s);
    SortedGrows(s.accepted, s.born, id, |s.born|);
    assert VisibleIds(t.entries, t.now) <= VisibleIds(s.entries, s.now) + {id};
    RememberedGrows(VisibleIds(s.entries, s.now), VisibleIds(t.entries, t.now), s.rows, s.accepted, s.born, id);
    AcksFrame(s, t);
    AppendSession(s, t, id);
    AppendDispatch(s, t, id);
  }

  lemma {:induction false} BornBelow(s: State)
    requires StoreInv(s.entries, s.born)
    ensures forall x :: x in s.born ==> s.born[x] < |s.born|
  {
  }

  lemma {:induction false} AppendSession(s: State, t: State, id: string)
    requires SessionInv(s) && id !in s.born && t == s.(entries := t.entries, born := s.born[id := |s.born|])
    requires Sorted(s.accepted, s.born) && forall x :: x in s.born ==> s.born[x] < |s.born|
    requires Remembered(VisibleIds(s.entries, s.now), s.rows, s.accepted, s.born)
    requires VisibleIds(t.entries, t.now) <= VisibleIds(s.entries, s.now) + {id}
    ensures SessionInv(t)
  {
    BornInVisible(s);
    assert Current(t) == Current(s);
    hide Sorted, Remembered, Closed, VisibleIds, RowSet, Current;
    SortedGrows(Current(s), s.born, id, |s.born|);
    RememberedGrows(RowSet(Current(s)), RowSet(Current(s)), s.rows, s.accepted, s.born, id);
  }

  lemma {:induction false} AppendDispatch(s: State, t: State, id: string)
    requires DispatchInv(s) && id !in s.born && t == s.(entries := t.entries, born := s.born[id := |s.born|])
    ensures DispatchInv(t)
  {
    assert Undispatched(t) == Undispatched(s);
    hide Sorted, Undispatched;
    SortedGrows(s.dispatched + Undispatched(s), s.born, id, |s.born|);
  }

  lemma {:induction false} BornInVisible(s: State)
    requires Remembered(VisibleIds(s.entries, s.now), s.rows, s.accepted, s.born)
    ensures forall id :: id in VisibleIds(s.entries, s.now) ==> id in s.born
  {
  }

  // ----- Connections and sessions --------------------------------------------------------------

  lemma {:induction false} NoHandling(s: State, t: State)
    requires AcksInv(s) && t.accepted == s.accepted && t.handling.None?
    requires forall sid :: sid in t.sessions && t.sessions[sid].Acked? ==>
               sid in s.sessions && t.sessions[sid] == s.sessions[sid]
    ensures AcksInv(t)
  {
  }

  lemma {:induction false} ConnectKeeps(s: State, sid: nat)
    requires Inv(s) && Enabled(s, Connect(sid))
    ensures Inv(Do(s, Connect(sid)))
  {
    var t := Do(s, Connect(sid));
    assert Current(t) == [];
    hide StoreInv, TableInv, Remembered, SessionInv, AcksInv, DispatchInv, VisibleIds, Current;
    NoHandling(s, t);
    PrefixDispatched(s, t);
  }

  lemma {:induction false} DisconnectKeeps(s: State)
    requires Inv(s)
    ensures Inv(Do(s, Disconnect))
  {
    var t := Do(s, Disconnect);
    assert Current(t) == [];
    hide StoreInv, TableInv, Remembered, SessionInv, AcksInv, DispatchInv, VisibleIds, Current;
    NoHandling(s, t);
    PrefixDispatched(s, t);
  }

  lemma {:induction false} PrefixDispatched(s: State, t: State)
    requires DispatchInv(s) && t.dispatched == s.dispatched && t.handling.None?
    requires t.born == s.born && t.accepted == s.accepted
    ensures DispatchInv(t)
  {
    assert t.dispatched + Undispatched(t) == (s.dispatched + Undispatched(s))[..|s.dispatched|];
    forall id | id in t.dispatched + Undispatched(t)
      ensures id in t.accepted
    {
      assert id in s.dispatched + Undispatched(s);
    }
  }

  lemma {:induction false} EndSessionKeeps(s: State, sid: nat)
    requires Inv(s) && Enabled(s, EndSession(sid))
    ensures Inv(Do(s, EndSession(sid)))
  {
    var t := Do(s, EndSession(sid));
    assert Current(t) == Current(s);
    hide StoreInv, TableInv, Remembered, SessionInv, AcksInv, DispatchInv, VisibleIds, Current;
    SessionFrame(s, t);
    AcksFrame(s, t);
    DispatchFrame(s, t);
  }

  lemma {:induction false} SendNextPending(ns: seq<Notification>)
    ensures Pending(SendNext(ns)) == ns && !SendNext(ns).Acked?
  {
  }

  lemma {:induction false} PrepareKeeps(s: State, sid: nat)
    requires Inv(s) && Enabled(s, Prepare(sid))
    ensures Inv(Do(s, Prepare(sid)))
  {
    hide StoreInv, TableInv, Remembered, SessionInv, AcksInv, DispatchInv, Live, SendNext;
    DispatchFrame(s, Do(s, Prepare(sid)));
    PrepareSession(s, sid);
    PrepareAcks(s, sid);
  }

  lemma {:induction false} PrepareAcks(s: State, sid: nat)
    requires AcksInv(s) && Enabled(s, Prepare(sid))
    ensures AcksInv(Do(s, Prepare(sid)))
  {
    hide SendNext, IdSet, RowSet;
    SendNextPending(Notifs(Live(s.entries, s.now)));
  }

  lemma {:induction false} PrepareSession(s: State, sid: nat)
    requires StoreInv(s.entries, s.born) && SessionInv(s) && Enabled(s, Prepare(sid))
    requires Remembered(VisibleIds(s.entries, s.now), s.rows, s.accepted, s.born)
    ensures SessionInv(Do(s, Prepare(sid)))
  {
    var t, live := Do(s, Prepare(sid)), Live(s.entries, s.now);
    hide Live, Unexpired, SendNext, Sorted, KeyUnique;
    SendNextPending(Notifs(live));
    if s.conn == Some(sid) {
      LiveOfUnique(s.entries, s.now);
      UnexpiredFacts(s.entries, s.now, s.born);
      assert Current(t) == EntryIds(live);
      assert RowSet(Current(t)) == VisibleIds(s.entries, s.now);
    } else {
      assert Current(t) == Current(s);
      SessionFrame(s, t);
    }
  }

  // ----- The client records a part -------------------------------------------------------------

  /** The new rows are newer than everything accepted before, and the table stays a suffix of it:
      the rows not older than the head of the part. */
  lemma {:induction false} RecordRows(rows: seq<string>, accepted: seq<string>, part: seq<Notification>,
                                      born: map<string, nat>)
    requires part != [] && TableInv(rows, accepted, born) && Sorted(Ids(part), born)
    requires Remembered(RowSet(Ids(part)), rows, accepted, born)
    ensures var unseen, h := Ids(Fresh(RowSet(rows), part)), part[0].msgId;
            && Sorted(unseen, born)
            && (forall id :: id in unseen ==> id in Ids(part) && LastOrder(accepted, born) < Order(id, born))
            && (forall id :: id in Ids(part) ==> id in rows + unseen)
            && TableInv(AfterSeen(rows, part), accepted + unseen, born)
            && (forall id :: id in AfterSeen(rows, part) <==> id in rows + unseen && Order(h, born) <= Order(id, born))
  {
    var unseen, h := Ids(Fresh(RowSet(rows), part)), part[0].msgId;
    FreshFacts(RowSet(rows), part, born);
    hide Sorted, Fresh, DropBefore, LastOrder, IsSuffix;
    SortedConcat(accepted, unseen, born);
    SuffixAppend(rows, accepted, unseen);
    SuffixSorted(rows + unseen, accepted + unseen, born);
    assert Ids(part)[0] == h;
    assert h in rows + unseen;
    DropBeforeFacts(rows + unseen, h, born);
    SuffixTrans(AfterSeen(rows, part), rows + unseen, accepted + unseen);
  }

  /** The heart of the argument: recording the next part keeps everything not newer than the last
      accepted id in the table, although the rows before the head of the part go. */
  lemma {:induction false} RecordPart(rows: seq<string>, accepted: seq<string>, part: seq<Notification>,
                                      rest: seq<Notification>, visible: set<string>, born: map<string, nat>)
    requires part != [] && TableInv(rows, accepted, born)
    requires Sorted(Ids(part + rest), born)
    requires Remembered(RowSet(Ids(part + rest)), rows, accepted, born)
    requires Remembered(visible, rows, accepted, born)
    requires Closed(visible, Ids(part + rest), born)
    ensures var unseen := Ids(Fresh(RowSet(rows), part));
            && Sorted(unseen, born)
            && (forall id :: id in unseen ==> LastOrder(accepted, born) < Order(id, born))
            && (forall id :: id in Ids(part) ==> id in rows + unseen)
            && TableInv(AfterSeen(rows, part), accepted + unseen, born)
            && Remembered(RowSet(Ids(part + rest)), AfterSeen(rows, part), accepted + unseen, born)
            && Remembered(visible, AfterSeen(rows, part), accepted + unseen, born)
  {
    hide Sorted, Fresh, AfterSeen, TableInv, LastOrder;
    var all, unseen := Ids(part + rest), Ids(Fresh(RowSet(rows), part));
    var rows' := AfterSeen(rows, part);
    assert all == Ids(part) + Ids(rest);
    SortedParts(Ids(part), Ids(rest), born);
    RecordRows(rows, accepted, part, born);
    SortedDistinct(all, born);
    assert all[0] == part[0].msgId && all[0] in all;
    HeadIsFirst(all, born);
    LastOfConcat(accepted, unseen, born);
    LastIsMember(unseen, born);
    forall id | id in all && Order(id, born) <= LastOrder(accepted + unseen, born)
      ensures id in rows'
    {
      if LastOrder(accepted, born) < Order(id, born) {
        assert id in Ids(part);
      }
    }
    forall id | id in visible && Order(id, born) <= LastOrder(accepted + unseen, born)
      ensures id in rows'
    {
      if id !in all {
        assert LastOrder(all, born) < Order(id, born);
        assert unseen == [];
      }
    }
  }

  lemma {:induction false} LastIsMember(ids: seq<string>, born: map<string, nat>)
    ensures ids != [] ==> exists id :: id in ids && Order(id, born) == LastOrder(ids, born)
  {
    if ids != [] {
      assert ids[|ids| - 1] in ids;
    }
  }

  /** In a sorted list the front comes before the back. */
  lemma {:induction false} SortedParts(a: seq<string>, b: seq<string>, born: map<string, nat>)
    requires Sorted(a + b, born)
    ensures Sorted(a, born) && Sorted(b, born)
    ensures forall x, y :: x in a && y in b ==> Order(x, born) < Order(y, born)
  {
    assert forall i :: 0 <= i < |a| ==> (a + b)[i] == a[i];
    forall i | 0 <= i < |b|
      ensures (a + b)[|a| + i] == b[i] && b[i] in born
    {
      assert (a + b)[|a| + i] in born;
    }
    forall i, j | 0 <= i < j < |b|
      ensures Order(b[i], born) < Order(b[j], born)
    {
      assert Order((a + b)[|a| + i], born) < Order((a + b)[|a| + j], born);
    }
    forall x, y | x in a && y in b
      ensures Order(x, born) < Order(y, born)
    {
      var i :| 0 <= i < |a| && a[i] == x;
      var j :| 0 <= j < |b| && b[j] == y;
      assert Order((a + b)[i], born) < Order((a + b)[|a| + j], born);
    }
  }

  lemma {:induction false} HeadIsFirst(ids: seq<string>, born: map<string, nat>)
    requires ids != [] && Sorted(ids, born)
    ensures forall id :: id in ids ==> Order(ids[0], born) <= Order(id, born)
  {
  }

  lemma {:induction false} LastOfConcat(a: seq<string>, b: seq<string>, born: map<string, nat>)
    ensures LastOrder(a + b, born) == if b == [] then LastOrder(a, born) else LastOrder(b, born)
  {
    if b == [] {
      assert a + b == a;
    }
  }

  lemma {:induction false} ReceiveKeeps(s: State, sid: nat)
    requires Inv(s) && Enabled(s, Receive(sid))
    ensures Inv(Do(s, Receive(sid)))
  {
    var Sent(part, rest) := s.sessions[sid];
    var t := Do(s, Receive(sid));
    var unseen := Ids(Fresh(RowSet(s.rows), part));
    assert Current(t) == Current(s) == Ids(part + rest);
    hide Sorted, Fresh, AfterSeen, LastOrder, Remembered, Closed, StoreInv, TableInv, VisibleIds, Ids, IdSet, RowSet,
         AcksInv, DispatchInv, Current;
    if part == [] {
      FreshOfNone(RowSet(s.rows));
      assert s.accepted + [] == s.accepted;
    } else {
      RecordPart(s.rows, s.accepted, part, rest, VisibleIds(s.entries, s.now), s.born);
    }
    ReceiveAcks(s, sid, unseen);
    ReceiveDispatch(s, sid, unseen);
  }

  lemma {:induction false} ReceiveAcks(s: State, sid: nat, unseen: seq<string>)
    requires AcksInv(s) && Enabled(s, Receive(sid))
    requires unseen == Ids(Fresh(RowSet(s.rows), s.sessions[sid].part))
    requires forall id :: id in s.rows ==> id in s.accepted
    requires forall id :: id in Ids(s.sessions[sid].part) ==> id in s.rows + unseen
    ensures AcksInv(Do(s, Receive(sid)))
  {
    hide Fresh, AfterSeen;
    var part := s.sessions[sid].part;
    hide IdSet, Ids;
    forall id | id in Ids(part)
      ensures id in s.accepted + unseen
    {
      assert id in s.rows + unseen;
    }
  }

  lemma {:induction false} ReceiveDispatch(s: State, sid: nat, unseen: seq<string>)
    requires DispatchInv(s) && Enabled(s, Receive(sid)) && Sorted(s.accepted, s.born) && Sorted(unseen, s.born)
    requires unseen == Ids(Fresh(RowSet(s.rows), s.sessions[sid].part))
    requires forall id :: id in unseen ==> LastOrder(s.accepted, s.born) < Order(id, s.born)
    ensures DispatchInv(Do(s, Receive(sid)))
  {
    var t := Do(s, Receive(sid));
    assert t.dispatched + Undispatched(t) == s.dispatched + unseen;
    assert s.dispatched + Undispatched(s) == s.dispatched;
    hide Sorted, Fresh, AfterSeen, LastOrder, Undispatched;
    AllBelowLast(s.dispatched, s.accepted, s.born);
    SortedConcat(s.dispatched, unseen, s.born);
  }

  lemma {:induction false} AllBelowLast(ids: seq<string>, accepted: seq<string>, born: map<string, nat>)
    requires Sorted(accepted, born) && Sorted(ids, born) && forall id :: id in ids ==> id in accepted
    ensures LastOrder(ids, born) <= LastOrder(accepted, born)
  {
    SortedDistinct(accepted, born);
  }

  // ----- Acks ----------------------------------------------------------------------------------

  lemma {:induction false} AckKeeps(s: State, sid: nat, addressed: set<string>, stays: bool)
    requires Inv(s) && Enabled(s, Ack(sid, addressed, stays))
    ensures Inv(Do(s, Ack(sid, addressed, stays)))
  {
    hide Sorted, Remembered, Closed, StoreInv, TableInv, Picked;
    var t := Do(s, Ack(sid, addressed, stays));
    var acc := Ids(s.handling.value);
    assert Current(t) == (if stays then Current(s) else []);
    SortedParts(s.dispatched, acc, s.born);
    PickedFacts(acc, addressed, s.born);
    EmptyCurrent(s);
    DispatchMore(s.dispatched, acc, Picked(acc, addressed), s.born);
    assert t.dispatched + Undispatched(t) == s.dispatched + Picked(acc, addressed);
  }

  lemma {:induction false} EmptyCurrent(s: State)
    ensures Sorted([], s.born) && Remembered(RowSet([]), s.rows, s.accepted, s.born)
    ensures (forall id :: id in VisibleIds(s.entries, s.now) ==> id in s.born) ==>
              Closed(VisibleIds(s.entries, s.now), [], s.born)
    ensures Remembered(VisibleIds(s.entries, s.now), s.rows, s.accepted, s.born) ==>
              forall id :: id in VisibleIds(s.entries, s.now) ==> id in s.born
  {
  }

  lemma {:induction false} DispatchMore(done: seq<string>, acc: seq<string>, picked: seq<string>, born: map<string,
                                        nat>)
    requires Sorted(done, born) && Sorted(picked, born)
    requires forall x, y :: x in done && y in acc ==> Order(x, born) < Order(y, born)
    requires forall id :: id in picked ==> id in acc && id in born
    ensures Sorted(done + picked, born)
  {
    SortedConcat(done, picked, born);
  }

  lemma {:induction false} ServerAckKeeps(s: State, sid: nat)
    requires Inv(s) && Enabled(s, ServerAck(sid))
    ensures Inv(Do(s, ServerAck(sid)))
  {
    hide StoreInv, TableInv, Remembered, SessionInv, AcksInv, DispatchInv, WithoutIds, SendNext, VisibleIds;
    var t := Do(s, ServerAck(sid));
    DispatchFrame(s, t);
    DropShrinks(s.entries, s.sessions[sid].part, s.born, s.now);
    RememberedLess(VisibleIds(s.entries, s.now), VisibleIds(t.entries, t.now), s.rows, s.accepted, s.born);
    ServerAckAcks(s, sid);
    ServerAckSession(s, sid);
  }

  lemma {:induction false} ServerAckAcks(s: State, sid: nat)
    requires AcksInv(s) && Enabled(s, ServerAck(sid))
    ensures AcksInv(Do(s, ServerAck(sid)))
  {
    hide SendNext, WithoutIds, IdSet, RowSet;
    SendNextPending(s.sessions[sid].rest);
  }

  lemma {:induction false} ServerAckSession(s: State, sid: nat)
    requires StoreInv(s.entries, s.born) && SessionInv(s) && Enabled(s, ServerAck(sid))
    requires Remembered(VisibleIds(s.entries, s.now), s.rows, s.accepted, s.born)
    ensures SessionInv(Do(s, ServerAck(sid)))
  {
    var Acked(part, rest) := s.sessions[sid];
    var t := Do(s, ServerAck(sid));
    CurrentAfterAck(s, sid);
    hide SendNext, WithoutIds, StoreInv, VisibleIds, Current, Ids, IdSet, RowSet, Sorted, Remembered, Closed;
    BornInVisible(s);
    DropShrinks(s.entries, part, s.born, s.now);
    if s.conn == Some(sid) {
      SortedParts(Ids(part), Ids(rest), s.born);
      RememberedLess(RowSet(Current(s)), RowSet(Current(t)), s.rows, s.accepted, s.born);
      DropCloses(s.entries, part, rest, s.born, s.now);
    } else {
      SessionFrame(s, t);
    }
  }

  lemma {:induction false} CurrentAfterAck(s: State, sid: nat)
    requires Enabled(s, ServerAck(sid))
    ensures var Acked(part, rest) := s.sessions[sid];
            if s.conn == Some(sid) then Current(s) == Ids(part) + Ids(rest) && Current(Do(s,
                ServerAck(sid))) == Ids(rest)
            else Current(Do(s, ServerAck(sid))) == Current(s)
  {
    hide SendNext, WithoutIds, IdSet;
    var Acked(part, rest) := s.sessions[sid];
    SendNextPending(rest);
    assert Ids(part + rest) == Ids(part) + Ids(rest);
  }

  lemma {:induction false} RememberedLess(ids: set<string>, less: set<string>, rows: seq<string>,
                                          accepted: seq<string>, born: map<string, nat>)
    requires Remembered(ids, rows, accepted, born) && less <= ids
    ensures Remembered(less, rows, accepted, born)
  {
  }

  lemma {:induction false} DropShrinks(entries: seq<Entry>, part: seq<Notification>, born: map<string, nat>, now: int)
    requires StoreInv(entries, born)
    ensures StoreInv(WithoutIds(entries, IdSet(part)), born)
    ensures VisibleIds(WithoutIds(entries, IdSet(part)), now) <= VisibleIds(entries, now) - IdSet(part)
  {
    hide WithoutIds, Sorted;
    WithoutIdsSorted(entries, IdSet(part), born);
    WithoutIdsSubset(entries, IdSet(part));
    WithoutIdsUnique(entries, IdSet(part));
  }

  /** Once the part is dropped from the store, the rest still covers what is visible below its end. */
  lemma {:induction false} DropCloses(entries: seq<Entry>, part: seq<Notification>, rest: seq<Notification>,
                                      born: map<string, nat>, now: int)
    requires StoreInv(entries, born)
    requires Closed(VisibleIds(entries, now), Ids(part) + Ids(rest), born)
    requires forall id :: id in VisibleIds(entries, now) ==> id in born
    ensures Closed(VisibleIds(WithoutIds(entries, IdSet(part)), now), Ids(rest), born)
  {
    hide VisibleIds, WithoutIds;
    DropShrinks(entries, part, born, now);
    LastOfConcat(Ids(part), Ids(rest), born);
  }

  // ----- Theorems over all runs ----------------------------------------------------------------

  lemma {:induction false} StepKeeps(s: State, step: Step)
    requires Inv(s) && Enabled(s, step) && Guarded(s, step)
    ensures Inv(Do(s, step))
  {
    hide Inv;
    match step
    case Tick(d) => TickKeeps(s, d);
    case Scrub(appId, replaceTag) => ScrubKeeps(s, appId, replaceTag);
    case Append(e) => AppendKeeps(s, e);
    case Connect(sid) => ConnectKeeps(s, sid);
    case Disconnect => DisconnectKeeps(s);
    case EndSession(sid) => EndSessionKeeps(s, sid);
    case Prepare(sid) => PrepareKeeps(s, sid);
    case Receive(sid) => ReceiveKeeps(s, sid);
    case Ack(sid, addressed, stays) => AckKeeps(s, sid, addressed, stays);
    case ServerAck(sid) => ServerAckKeeps(s, sid);
  }

  lemma {:induction false} RunKeeps(run: seq<State>, steps: seq<Step>, i: nat)
    requires IsGuardedRun(run, steps) && i < |run|
    ensures Inv(run[i])
  {
    hide Inv;
    if i == 0 {
      InitInv();
    } else {
      RunKeeps(run, steps, i - 1);
      StepKeeps(run[i - 1], steps[i - 1]);
    }
  }

  lemma {:induction false} InitInv()
    ensures Inv(INIT)
  {
  }

  // ----- Reachable states ----------------------------------------------------------------------

  ghost predicate Reachable(t: State) {
    exists run, steps :: IsRun(run, steps) && run[|steps|] == t
  }

  ghost predicate GuardedReachable(t: State) {
    exists run, steps :: IsGuardedRun(run, steps) && run[|steps|] == t
  }

  lemma {:induction false} InitReachable()
    ensures Reachable(INIT) && GuardedReachable(INIT)
  {
    var steps: seq<Step> := [];
    assert IsGuardedRun([INIT], steps) && [INIT][|steps|] == INIT;
  }

  lemma {:induction false} StepReachable(s: State, step: Step)
    requires Reachable(s) && Enabled(s, step)
    ensures Reachable(Do(s, step))
  {
    hide Enabled, Do;
    var run, steps :| IsRun(run, steps) && run[|steps|] == s;
    assert IsRun(run + [Do(s, step)], steps + [step]);
    assert (run + [Do(s, step)])[|steps + [step]|] == Do(s, step);
  }

  lemma {:induction false} GuardedStepReachable(s: State, step: Step)
    requires GuardedReachable(s) && Enabled(s, step) && Guarded(s, step)
    ensures GuardedReachable(Do(s, step))
  {
    hide Enabled, Do, Guarded;
    var run, steps :| IsGuardedRun(run, steps) && run[|steps|] == s;
    var run', steps' := run + [Do(s, step)], steps + [step];
    assert IsRun(run', steps');
    assert IsGuardedRun(run', steps');
    assert run'[|steps'|] == Do(s, step);
  }

  lemma {:induction false} GuardedIsReachable(t: State)
    requires GuardedReachable(t)
    ensures Reachable(t) && Inv(t)
  {
    hide Inv, Enabled, Do;
    var run, steps :| IsGuardedRun(run, steps) && run[|steps|] == t;
    RunKeeps(run, steps, |steps|);
  }

  // ----- Theorems about all guarded runs ---------------------------------------------------------

  /** At most once: no id is dispatched twice, although seen rows are deleted, and what is accepted and
      dispatched comes in append order. */
  lemma {:induction false} AtMostOnce(s: State)
    requires GuardedReachable(s)
    ensures Distinct(s.dispatched) && Sorted(s.dispatched, s.born)
    ensures Distinct(s.accepted) && Sorted(s.accepted, s.born)
    ensures forall id :: id in s.dispatched ==> id in s.accepted
  {
    GuardedIsReachable(s);
    SortedParts(s.dispatched, Undispatched(s), s.born);
    SortedDistinct(s.dispatched, s.born);
    SortedDistinct(s.accepted, s.born);
    forall id | id in s.dispatched
      ensures id in s.accepted
    {
      assert id in s.dispatched + Undispatched(s);
    }
  }

  /** A deleted row never matters again: an id that was accepted and is no longer in the table is
      neither visible in the store nor still to be sent to the client. */
  lemma {:induction false} DeletedIdsNeverReturn(s: State, id: string)
    requires GuardedReachable(s) && id in s.accepted && id !in s.rows
    ensures id !in VisibleIds(s.entries, s.now) && id !in Current(s)
  {
    GuardedIsReachable(s);
    SortedDistinct(s.accepted, s.born);
    RowSetMember(Current(s), id);
  }

  /** On every part that reaches the client, the pruned table answers as the state that forgets
      nothing would. */
  lemma {:induction false} PrunedTableAgrees(s: State, sid: nat)
    requires GuardedReachable(s) && Enabled(s, Receive(sid))
    ensures var part := s.sessions[sid].part;
            Fresh(RowSet(s.rows), part) == Fresh(RowSet(s.accepted), part)
  {
    hide Fresh;
    GuardedIsReachable(s);
    var Sent(part, rest) := s.sessions[sid];
    assert Ids(part + rest) == Ids(part) + Ids(rest);
    SortedDistinct(s.accepted, s.born);
    SuffixSorted(s.rows, s.accepted, s.born);
    forall n | n in part
      ensures n.msgId in s.rows <==> n.msgId in s.accepted
    {
      var k :| 0 <= k < |part| && part[k] == n;
      assert Ids(part)[k] == n.msgId;
      assert n.msgId in Current(s);
      RowSetMember(Current(s), n.msgId);
    }
    FreshAgrees(RowSet(s.rows), RowSet(s.accepted), part);
  }

  lemma {:induction false} FreshAgrees(a: set<string>, b: set<string>, ns: seq<Notification>)
    requires forall n :: n in ns ==> (n.msgId in a <==> n.msgId in b)
    ensures Fresh(a, ns) == Fresh(b, ns)
    decreases |ns|
  {
    if ns != [] {
      if ns[0].msgId in a {
        FreshAgrees(a, b, ns[1..]);
      } else {
        FreshAgrees(a + {ns[0].msgId}, b + {ns[0].msgId}, ns[1..]);
      }
    }
  }

  /** What has expired when time has passed is not visible any more. */
  lemma {:induction false} TimeExpires(s: State, d: nat, e: Entry)
    requires e.meta.expiration < s.now + d
    ensures e !in Live(Do(s, Tick(d)).entries, Do(s, Tick(d)).now)
  {
    var t := Do(s, Tick(d));
    var live := Live(t.entries, t.now);
    LiveAreUnique(t.entries, t.now);
    hide Live;
    assert forall i :: 0 <= i < |live| ==> !Expired(live[i], t.now);
  }

  /** A server session that has ended sends nothing and drops nothing any more. */
  lemma {:induction false} EndedSessionIsSilent(run: seq<State>, steps: seq<Step>, i: nat, j: nat, sid: nat)
    requires IsRun(run, steps) && i < j < |steps| && steps[i] == EndSession(sid)
    ensures steps[j] != Prepare(sid) && steps[j] != ServerAck(sid)
  {
    HasEnded(run, steps, i, j, sid);
    assert Enabled(run[j], steps[j]);
  }

  lemma {:induction false} HasEnded(run: seq<State>, steps: seq<Step>, i: nat, j: nat, sid: nat)
    requires IsRun(run, steps) && i < j < |run| && steps[i] == EndSession(sid)
    ensures sid !in run[j].live && sid in run[j].sessions
    decreases j
  {
    hide Live, Unmatched, WithoutIds, SendNext, AfterSeen, Fresh, Picked;
    var s, step := run[j - 1], steps[j - 1];
    assert Enabled(s, step) && run[j] == Do(s, step);
    if i < j - 1 {
      HasEnded(run, steps, i, j - 1, sid);
    } else {
      LiveHaveSessions(run, steps, i, sid);
    }
  }

  lemma {:induction false} LiveHaveSessions(run: seq<State>, steps: seq<Step>, i: nat, sid: nat)
    requires IsRun(run, steps) && i < |run|
    ensures sid in run[i].live ==> sid in run[i].sessions
    decreases i
  {
    hide Live, Unmatched, WithoutIds, SendNext, AfterSeen, Fresh, Picked;
    if i > 0 {
      LiveHaveSessions(run, steps, i - 1, sid);
      assert Enabled(run[i - 1], steps[i - 1]) && run[i] == Do(run[i - 1], steps[i - 1]);
    }
  }

  // ----- What holds without the guard ----------------------------------------------------------

  /** Rows and acknowledged parts were accepted before. */
  ghost predicate RecordedInv(s: State) {
    AcksInv(s) && forall id :: id in s.rows ==> id in s.accepted
  }

  lemma {:induction false} FreshCovers(seen: set<string>, ns: seq<Notification>)
    ensures forall n :: n in ns ==> n.msgId in seen || n.msgId in Ids(Fresh(seen, ns))
    decreases |ns|
  {
    if ns != [] {
      var id0 := ns[0].msgId;
      assert ns == [ns[0]] + ns[1..];
      if id0 in seen {
        FreshCovers(seen, ns[1..]);
      } else {
        var rest := Fresh(seen + {id0}, ns[1..]);
        FreshCovers(seen + {id0}, ns[1..]);
        assert Ids([ns[0]] + rest) == [id0] + Ids(rest);
      }
    }
  }

  lemma {:induction false} DropBeforeSubset(rows: seq<string>, h: string)
    ensures forall id :: id in DropBefore(rows, h) ==> id in rows
  {
    if h in rows && rows[0] != h {
      DropBeforeSubset(rows[1..], h);
    }
  }

  lemma {:induction false} ReceiveRecords(s: State, sid: nat)
    requires RecordedInv(s) && Enabled(s, Receive(sid))
    ensures RecordedInv(Do(s, Receive(sid)))
  {
    var part := s.sessions[sid].part;
    var unseen := Ids(Fresh(RowSet(s.rows), part));
    FreshCovers(RowSet(s.rows), part);
    if part != [] {
      DropBeforeSubset(s.rows + unseen, part[0].msgId);
    }
    hide Fresh, DropBefore;
    forall n | n in part
      ensures n.msgId in s.accepted + unseen
    {
    }
  }

  lemma {:induction false} StepRecords(s: State, step: Step)
    requires RecordedInv(s) && Enabled(s, step)
    ensures RecordedInv(Do(s, step))
  {
    hide Fresh, AfterSeen, Picked, SendNext, Live, WithoutIds, Unmatched;
    match step
    case Receive(sid) => ReceiveRecords(s, sid);
    case Prepare(sid) => SendNextShape(Notifs(Live(s.entries, s.now)));
    case ServerAck(sid) => SendNextShape(s.sessions[sid].rest);
    case _ =>
  }

  lemma {:induction false} SendNextShape(ns: seq<Notification>)
    ensures !SendNext(ns).Acked?
  {
  }

  lemma {:induction false} DroppedIsTarget(es: seq<Entry>, ids: set<string>, e: Entry)
    requires e in es && e !in WithoutIds(es, ids)
    ensures e.notif.msgId in ids
  {
    if e == es[0] {
    } else {
      assert e in es[1..];
      DroppedIsTarget(es[1..], ids, e);
    }
  }

  lemma {:induction false} OneIsSent(n: Notification)
    requires NotificationSize(n) <= MAX_PAYLOAD_SIZE
    ensures SendNext([n]) == Sent([n], [])
  {
    NextPartOfOne(n);
  }

  lemma {:induction false} DropToLast(rows: seq<string>, id: string)
    requires id !in rows
    ensures DropBefore(rows + [id], id) == [id]
  {
    if rows != [] {
      assert (rows + [id])[1..] == rows[1..] + [id];
      DropToLast(rows[1..], id);
    }
  }
}
