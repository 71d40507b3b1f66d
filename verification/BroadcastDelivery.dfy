/** Delivery of the broadcasts of one channel to one client, as a transition system.

    Broadcasts are named by their position in the channel, so the level of a broadcast is its
    position plus one.  Broadcasts expire, snapshots may be queued out of order, exchanges are cut
    into parts anywhere, and the connection may break at every step.  Other sessions of the device
    have no effect on the channel or on the client, so only the client's own session is a part of
    the state. */
module BroadcastDelivery {
  import opened Sequences
  import opened Store
  import opened ChannelIds
  import opened Exchanges

  /** A snapshot of the channel: its top level and the positions of the visible broadcasts. */
  datatype Snapshot = Snapshot(top: nat, live: seq<nat>)

  /** An exchange under way.  `part` is the part sent last and `rest` what comes after it; `recorded`
      tells whether the client has recorded `part`, `started` whether it has recorded any part. */
  datatype Busy = Busy(x: Snapshot, part: seq<nat>, rest: seq<nat>, recorded: bool, started: bool)

  /** `since` and `top0` are the time and the top level at which the session began. */
  datatype Session = Session(level: int, taken: seq<Snapshot>, queue: seq<Snapshot>, busy: Option<Busy>,
                             since: int, top0: nat)

  /** `wanted` tells which payloads carry the tag of the device, and `recorded` which broadcasts the
      client has recorded. */
  datatype State = State(now: int, expirations: seq<int>, wanted: seq<bool>,
                         level: int, recorded: set<nat>, conn: Option<Session>)

  datatype Step =
    | Tick(d: nat)
    | Append(expiration: int, carriesTag: bool)
    | Connect
    | Take
    | Enqueue(i: nat)
    | Begin(k: nat)
    | Receive
    | AckDone(k: nat)
    | Disconnect

  /** The positions below `n` of the broadcasts that have not expired, in order. */
  function LiveBelow(expirations: seq<int>, now: int, n: nat): (r: seq<nat>)
    requires n <= |expirations|
  {
    if n == 0 then []
    else if expirations[n - 1] < now then LiveBelow(expirations, now, n - 1)
    else LiveBelow(expirations, now, n - 1) + [n - 1]
  }

  function Wanted(positions: seq<nat>, wanted: seq<bool>): (r: seq<nat>) {
    if positions == [] then []
    else if positions[0] < |wanted| && wanted[positions[0]] then [positions[0]] + Wanted(positions[1..], wanted)
    else Wanted(positions[1..], wanted)
  }

  /** What a session at `level` gets out of a snapshot. */
  function PayloadOf(level: int, x: Snapshot, wanted: seq<bool>): (r: seq<nat>) {
    Wanted(FilterByLevel(level, x.top, x.live), wanted)
  }

  /** What the client has not recorded of the exchange under way. */
  function Unrecorded(b: Busy): (r: seq<nat>) {
    if b.recorded then b.rest else b.part + b.rest
  }

  predicate Enabled(s: State, step: Step) {
    match step
    case Tick(_) => true
    case Append(_, _) => true
    case Connect => s.conn.None?
    case Take => s.conn.Some?
    case Enqueue(i) => s.conn.Some? && i < |s.conn.value.taken|
    case Begin(k) => s.conn.Some? && s.conn.value.busy.None? && s.conn.value.queue != [] &&
                     k <= |PayloadOf(s.conn.value.level, s.conn.value.queue[0], s.wanted)|
    case Receive => s.conn.Some? && s.conn.value.busy.Some? && !s.conn.value.busy.value.recorded
    case AckDone(k) => s.conn.Some? && s.conn.value.busy.Some? && s.conn.value.busy.value.recorded
                       && k <= |s.conn.value.busy.value.rest|
    case Disconnect => s.conn.Some?
  }

  /** The session for the next part, or for the next exchange. */
  function Advance(c: Session, b: Busy, k: nat): (r: Session)
    requires k <= |b.rest|
  {
    if b.rest == [] then c.(level := b.x.top, busy := None)
    else c.(level := b.x.top, busy := Some(b.(part := b.rest[..k], rest := b.rest[k..], recorded := false)))
  }

  function Do(s: State, step: Step): (t: State)
    requires Enabled(s, step) && |s.wanted| == |s.expirations|
    ensures |t.wanted| == |t.expirations|
  {
    match step
    case Tick(d) => s.(now := s.now + d)
    case Append(expiration, carriesTag) =>
      s.(expirations := s.expirations + [expiration], wanted := s.wanted + [carriesTag])
    case Connect => s.(conn := Some(Session(s.level, [], [], None, s.now, |s.expirations|)))
    case Take =>
      var c := s.conn.value;
      var x := Snapshot(|s.expirations|, LiveBelow(s.expirations, s.now, |s.expirations|));
      s.(conn := Some(c.(taken := c.taken + [x])))
    case Enqueue(i) =>
      var c := s.conn.value;
      s.(conn := Some(c.(taken := c.taken[..i] + c.taken[i + 1..], queue := c.queue + [c.taken[i]])))
    case Begin(k) =>
      var c := s.conn.value;
      var x := c.queue[0];
      var payload := PayloadOf(c.level, x, s.wanted);
      if payload == [] && x.top >= c.level then s.(conn := Some(c.(queue := c.queue[1..])))
      else s.(conn := Some(c.(queue := c.queue[1..],
                              busy := Some(Busy(x, payload[..k], payload[k..], false, false)))))
    case Receive =>
      var c := s.conn.value;
      var b := c.busy.value;
      s.(level := b.x.top - |b.rest|, recorded := s.recorded + (set i | i in b.part),
         conn := Some(c.(busy := Some(b.(recorded := true, started := true)))))
    case AckDone(k) => s.(conn := Some(Advance(s.conn.value, s.conn.value.busy.value, k)))
    case Disconnect => s.(conn := None)
  }

  /** Breaking off is harmless when no part, or every part, of the exchange is recorded, or when what
      is missing is the very end of the snapshot. */
  ghost predicate CutSafe(s: State, step: Step) {
    step.Disconnect? && s.conn.Some? && s.conn.value.busy.Some? && s.conn.value.busy.value.started ==>
      var b := s.conn.value.busy.value;
      IsEnd(Unrecorded(b), b.x.live)
  }

  ghost predicate IsEnd(a: seq<nat>, b: seq<nat>) {
    |a| <= |b| && a == b[|b| - |a|..]
  }

  // ----- Counting live broadcasts --------------------------------------------------------------

  /** How many broadcasts from `lo` to `hi` have not expired at time `t`. */
  ghost function Alive(expirations: seq<int>, t: int, lo: int, hi: int): (r: nat)
    decreases hi - lo
  {
    if hi <= lo then 0
    else Alive(expirations, t, lo, hi - 1) + if 0 < hi <= |expirations| && expirations[hi - 1] >= t then 1 else 0
  }

  ghost predicate Increasing(s: seq<nat>) {
    forall i, j :: 0 <= i < j < |s| ==> s[i] < s[j]
  }

  lemma {:induction false} AliveAtMost(expirations: seq<int>, t: int, lo: int, hi: int)
    requires lo <= hi
    ensures Alive(expirations, t, lo, hi) <= hi - lo
    decreases hi - lo
  {
    if lo < hi {
      AliveAtMost(expirations, t, lo, hi - 1);
    }
  }

  lemma {:induction false} AliveLater(expirations: seq<int>, t: int, later: int, lo: int, hi: int)
    requires t <= later
    ensures Alive(expirations, later, lo, hi) <= Alive(expirations, t, lo, hi)
    decreases hi - lo
  {
    if lo < hi {
      AliveLater(expirations, t, later, lo, hi - 1);
    }
  }

  lemma {:induction false} AliveAppend(expirations: seq<int>, e: int, t: int, lo: int, hi: int)
    requires hi <= |expirations|
    ensures Alive(expirations + [e], t, lo, hi) == Alive(expirations, t, lo, hi)
    decreases hi - lo
  {
    if lo < hi {
      AliveAppend(expirations, e, t, lo, hi - 1);
    }
  }

  lemma {:induction false} AliveSplit(expirations: seq<int>, t: int, lo: int, mid: int, hi: int)
    requires lo <= mid <= hi
    ensures Alive(expirations, t, lo, hi) == Alive(expirations, t, lo, mid) + Alive(expirations, t, mid, hi)
    decreases hi - mid
  {
    if mid < hi {
      AliveSplit(expirations, t, lo, mid, hi - 1);
    }
  }

  /** Broadcasts alive at `t` from `lo` to `hi`, listed in order, are at most all of them. */
  lemma {:induction false} ListedAlive(s: seq<nat>, expirations: seq<int>, t: int, lo: int, hi: int)
    requires Increasing(s)
    requires forall i :: 0 <= i < |s| ==> lo <= s[i] < hi && s[i] < |expirations| && expirations[s[i]] >= t
    ensures |s| <= Alive(expirations, t, lo, hi)
    decreases hi - lo
  {
    if s != [] {
      var n := |s| - 1;
      if s[n] == hi - 1 {
        ListedAlive(s[..n], expirations, t, lo, hi - 1);
      } else {
        ListedAlive(s, expirations, t, lo, hi - 1);
      }
    }
  }

  /** A list in order that has all broadcasts alive at `t` from `lo` to `hi` is at least as long. */
  lemma {:induction false} AliveListed(s: seq<nat>, expirations: seq<int>, t: int, lo: nat, hi: nat)
    requires Increasing(s) && hi <= |expirations|
    requires forall i :: lo <= i < hi && expirations[i] >= t ==> i in s
    ensures Alive(expirations, t, lo, hi) <= |s|
    decreases hi
  {
    if lo < hi {
      if expirations[hi - 1] >= t {
        var p :| 0 <= p < |s| && s[p] == hi - 1;
        forall i | lo <= i < hi - 1 && expirations[i] >= t
          ensures i in s[..p]
        {
          var q :| 0 <= q < |s| && s[q] == i;
          assert s[..p][q] == i;
        }
        AliveListed(s[..p], expirations, t, lo, hi - 1);
      } else {
        AliveListed(s, expirations, t, lo, hi - 1);
      }
    }
  }

  lemma {:induction false} LiveBelowFacts(expirations: seq<int>, now: int, n: nat)
    requires n <= |expirations|
    ensures var live := LiveBelow(expirations, now, n);
            && Increasing(live)
            && (forall i :: 0 <= i < |live| ==> live[i] < n && expirations[live[i]] >= now)
            && (forall i :: 0 <= i < n && expirations[i] >= now ==> i in live)
  {
    if n > 0 {
      LiveBelowFacts(expirations, now, n - 1);
      var before := LiveBelow(expirations, now, n - 1);
      forall i | 0 <= i < n && expirations[i] >= now
        ensures i in LiveBelow(expirations, now, n)
      {
        if i == n - 1 {
          assert LiveBelow(expirations, now, n)[|before|] == i;
        } else {
          assert i in before;
        }
      }
    }
  }

  lemma {:induction false} WantedFacts(positions: seq<nat>, wanted: seq<bool>)
    ensures forall e :: e in Wanted(positions, wanted) <==> e in positions && e < |wanted| && wanted[e]
  {
    if positions != [] {
      WantedFacts(positions[1..], wanted);
      assert positions == [positions[0]] + positions[1..];
    }
  }

  // ----- The invariant -------------------------------------------------------------------------

  /** Live, meant for the device, and not recorded by the client. */
  ghost predicate Missing(s: State, e: nat)
    requires |s.wanted| == |s.expirations|
  {
    e < |s.expirations| && s.expirations[e] >= s.now && s.wanted[e] && e !in s.recorded
  }

  /** Every missing broadcast is among the last `top - level` live ones. */
  ghost predicate NoLoss(s: State)
    requires |s.wanted| == |s.expirations|
  {
    var n := |s.expirations|;
    forall e: nat :: Missing(s, e) ==> Alive(s.expirations, s.now, e, n) <= n - s.level
  }

  /** The same for every snapshot the session may come to process: it may be stale, but it was taken
      after the session began. */
  ghost predicate Promise(s: State, since: int, top0: nat)
    requires |s.wanted| == |s.expirations|
  {
    forall e: nat, top :: Missing(s, e) && top0 <= top <= |s.expirations| && e < top ==>
      Alive(s.expirations, since, e, top) <= top - s.level
  }

  ghost predicate ValidSnapshot(s: State, x: Snapshot, since: int, top0: nat) {
    && top0 <= x.top <= |s.expirations| && Increasing(x.live)
    && (forall i :: 0 <= i < |x.live| ==> x.live[i] < x.top && s.expirations[x.live[i]] >= since)
    && (forall e: nat :: e < x.top && s.expirations[e] >= s.now ==> e in x.live)
  }

  ghost predicate ValidSnapshots(s: State, xs: seq<Snapshot>, since: int, top0: nat) {
    forall i :: 0 <= i < |xs| ==> ValidSnapshot(s, xs[i], since, top0)
  }

  /** Between two parts the level of the client leaves out exactly what is still to come. */
  ghost predicate Underway(s: State, c: Session, b: Busy)
    requires |s.wanted| == |s.expirations|
  {
    && ValidSnapshot(s, b.x, c.since, c.top0)
    && (!b.started ==>
          && !b.recorded && c.level == s.level && Promise(s, c.since, c.top0)
          && b.part + b.rest == PayloadOf(s.level, b.x, s.wanted))
    && (b.started ==>
          && s.level == b.x.top - |Unrecorded(b)|
          && forall e: nat :: Missing(s, e) && e < b.x.top ==> e in Unrecorded(b))
  }

  ghost predicate SessionInv(s: State, c: Session)
    requires |s.wanted| == |s.expirations|
  {
    && c.since <= s.now && c.top0 <= |s.expirations| && c.level <= |s.expirations|
    && ValidSnapshots(s, c.taken, c.since, c.top0)
    && ValidSnapshots(s, c.queue, c.since, c.top0)
    && (c.busy.None? ==> c.level == s.level && Promise(s, c.since, c.top0))
    && (c.busy.Some? ==> Underway(s, c, c.busy.value))
  }

  ghost predicate Inv(s: State) {
    && |s.wanted| == |s.expirations| && s.level <= |s.expirations|
    && (s.conn.None? ==> NoLoss(s))
    && (s.conn.Some? ==> SessionInv(s, s.conn.value))
  }

  // ----- The steps -----------------------------------------------------------------------------

  lemma {:induction false} TickKeeps(s: State, d: nat)
    requires Inv(s)
    ensures Inv(Do(s, Tick(d)))
  {
    var t := Do(s, Tick(d));
    forall e: nat | Missing(t, e)
      ensures Missing(s, e)
      ensures Alive(t.expirations, t.now, e, |t.expirations|) <= Alive(s.expirations, s.now, e, |s.expirations|)
    {
      AliveLater(s.expirations, s.now, t.now, e, |s.expirations|);
    }
  }

  lemma {:induction false} PromiseAppend(s: State, t: State, expiration: int, carriesTag: bool, since: int, top0: nat)
    requires |s.wanted| == |s.expirations| && t == Do(s, Append(expiration, carriesTag))
    requires Promise(s, since, top0) && s.level <= |s.expirations| && top0 <= |s.expirations|
    ensures Promise(t, since, top0)
  {
    var n := |s.expirations|;
    forall e: nat, top | Missing(t, e) && top0 <= top <= n + 1 && e < top
      ensures Alive(t.expirations, since, e, top) <= top - t.level
    {
      AliveAppend(s.expirations, expiration, since, e, if top <= n then top else n);
      if top == n + 1 && e < n {
        assert Missing(s, e);
      }
    }
  }

  lemma {:induction false} ValidAppend(s: State, t: State, expiration: int, carriesTag: bool, x: Snapshot,
                                       since: int, top0: nat)
    requires |s.wanted| == |s.expirations| && t == Do(s, Append(expiration, carriesTag))
    requires ValidSnapshot(s, x, since, top0)
    ensures ValidSnapshot(t, x, since, top0)
  {
  }

  lemma {:induction false} WantedAppend(positions: seq<nat>, wanted: seq<bool>, w: bool)
    requires forall i :: 0 <= i < |positions| ==> positions[i] < |wanted|
    ensures Wanted(positions, wanted + [w]) == Wanted(positions, wanted)
  {
    if positions != [] {
      WantedAppend(positions[1..], wanted, w);
    }
  }

  lemma {:induction false} AppendKeeps(s: State, expiration: int, carriesTag: bool)
    requires Inv(s)
    ensures Inv(Do(s, Append(expiration, carriesTag)))
  {
    var t, n := Do(s, Append(expiration, carriesTag)), |s.expirations|;
    hide Alive, Promise, ValidSnapshot, PayloadOf;
    if s.conn.None? {
      hide Missing;
      forall e: nat | Missing(t, e)
        ensures Alive(t.expirations, t.now, e, n + 1) <= n + 1 - t.level
      {
        NewTop(s.expirations, expiration, s.now, e);
      }
    } else {
      var c := s.conn.value;
      if c.busy.None? || !c.busy.value.started {
        PromiseAppend(s, t, expiration, carriesTag, c.since, c.top0);
      }
      forall x | ValidSnapshot(s, x, c.since, c.top0)
        ensures ValidSnapshot(t, x, c.since, c.top0)
      {
        ValidAppend(s, t, expiration, carriesTag, x, c.since, c.top0);
      }
      if c.busy.Some? {
        PayloadAppend(s, t, c.busy.value.x, c.since, c.top0);
      }
    }
  }

  lemma {:induction false} NewTop(expirations: seq<int>, expiration: int, t: int, e: nat)
    ensures var n := |expirations|;
            && (e < n ==> Alive(expirations + [expiration], t, e, n + 1) <= Alive(expirations, t, e, n) + 1)
            && Alive(expirations + [expiration], t, n, n + 1) <= 1
  {
    AliveAppend(expirations, expiration, t, e, |expirations|);
  }

  lemma {:induction false} PayloadAppend(s: State, t: State, x: Snapshot, since: int, top0: nat)
    requires |s.wanted| == |s.expirations| && ValidSnapshot(s, x, since, top0)
    requires |t.wanted| == |s.wanted| + 1 && t.wanted[..|s.wanted|] == s.wanted && t.level == s.level
    ensures PayloadOf(t.level, x, t.wanted) == PayloadOf(s.level, x, s.wanted)
  {
    var w := t.wanted[|s.wanted|];
    assert t.wanted == s.wanted + [w];
    WantedAppend(FilterByLevel(s.level, x.top, x.live), s.wanted, w);
  }

  lemma {:induction false} ConnectKeeps(s: State)
    requires Inv(s) && Enabled(s, Connect)
    ensures Inv(Do(s, Connect))
  {
    var t := Do(s, Connect);
    assert forall e: nat :: Missing(t, e) <==> Missing(s, e);
  }

  lemma {:induction false} TakeKeeps(s: State)
    requires Inv(s) && Enabled(s, Take)
    ensures Inv(Do(s, Take))
  {
    LiveBelowFacts(s.expirations, s.now, |s.expirations|);
    hide LiveBelow;
    var t, c := Do(s, Take), s.conn.value;
    var x := Snapshot(|s.expirations|, LiveBelow(s.expirations, s.now, |s.expirations|));
    assert ValidSnapshot(s, x, c.since, c.top0);
    SameChannel(s, t, c);
  }

  /** What depends on the channel and the client only does not change with the session. */
  lemma {:induction false} SameChannel(s: State, t: State, c: Session)
    requires |s.wanted| == |s.expirations| && t == s.(conn := t.conn)
    ensures forall e: nat :: Missing(t, e) <==> Missing(s, e)
    ensures forall x :: ValidSnapshot(t, x, c.since, c.top0) <==> ValidSnapshot(s, x, c.since, c.top0)
    ensures Promise(t, c.since, c.top0) <==> Promise(s, c.since, c.top0)
  {
  }

  lemma {:induction false} EnqueueKeeps(s: State, i: nat)
    requires Inv(s) && Enabled(s, Enqueue(i))
    ensures Inv(Do(s, Enqueue(i)))
  {
    var t, c := Do(s, Enqueue(i)), s.conn.value;
    SameChannel(s, t, c);
    hide ValidSnapshot, Promise, Missing, PayloadOf;
  }

  lemma {:induction false} BeginKeeps(s: State, k: nat)
    requires Inv(s) && Enabled(s, Begin(k))
    ensures Inv(Do(s, Begin(k)))
  {
    var t, c := Do(s, Begin(k)), s.conn.value;
    SameChannel(s, t, c);
    hide ValidSnapshot, Promise, Missing, PayloadOf;
    var payload := PayloadOf(c.level, c.queue[0], s.wanted);
    assert payload[..k] + payload[k..] == payload;
  }

  /** An item with at most `top - level` live ones from it on passes the filter. */
  lemma {:induction false} AmongLast(level: int, top: int, live: seq<nat>, p: nat)
    requires p < |live| && |live| - p <= top - level
    ensures live[p] in FilterByLevel(level, top, live)
  {
    var f := FilterByLevel(level, top, live);
    assert f[p - (|live| - |f|)] == live[p];
  }

  /** The items of a list in order from a given one on are at most those alive from it on. */
  lemma {:induction false} TailAlive(live: seq<nat>, p: nat, expirations: seq<int>, t: int, top: nat)
    requires Increasing(live) && p < |live|
    requires forall i :: 0 <= i < |live| ==> live[i] < top && live[i] < |expirations| && expirations[live[i]] >= t
    ensures |live| - p <= Alive(expirations, t, live[p], top)
  {
    hide Alive;
    ListedAlive(live[p..], expirations, t, live[p], top);
  }

  /** What a session gets out of a snapshot covers what is missing and promised below its top level. */
  lemma {:induction false} Coverage(s: State, x: Snapshot, since: int, top0: nat, e: nat)
    requires |s.wanted| == |s.expirations| && ValidSnapshot(s, x, since, top0) && Missing(s, e) && e < x.top
    requires Alive(s.expirations, since, e, x.top) <= x.top - s.level
    ensures e in PayloadOf(s.level, x, s.wanted)
  {
    hide Alive, FilterByLevel, Wanted;
    var p :| 0 <= p < |x.live| && x.live[p] == e;
    TailAlive(x.live, p, s.expirations, since, x.top);
    AmongLast(s.level, x.top, x.live, p);
    WantedFacts(FilterByLevel(s.level, x.top, x.live), s.wanted);
  }

  lemma {:induction false} ReceiveKeeps(s: State)
    requires Inv(s) && Enabled(s, Receive)
    ensures Inv(Do(s, Receive))
  {
    var t, c := Do(s, Receive), s.conn.value;
    var b, b' := c.busy.value, t.conn.value.busy.value;
    forall e: nat | Missing(t, e) && e < b.x.top
      ensures e in Unrecorded(b')
    {
      assert Missing(s, e);
      if !b.started {
        Coverage(s, b.x, c.since, c.top0, e);
      }
      assert e in b.part + b.rest;
    }
    hide Promise, Missing, PayloadOf;
  }

  lemma {:induction false} AckDoneKeeps(s: State, k: nat)
    requires Inv(s) && Enabled(s, AckDone(k))
    ensures Inv(Do(s, AckDone(k)))
  {
    var t, c := Do(s, AckDone(k)), s.conn.value;
    var b := c.busy.value;
    SameChannel(s, t, c);
    hide ValidSnapshot, Missing, PayloadOf;
    if b.rest == [] {
      forall e: nat, top | Missing(t, e) && c.top0 <= top <= |t.expirations| && e < top
        ensures Alive(t.expirations, c.since, e, top) <= top - t.level
      {
        AliveAtMost(t.expirations, c.since, e, top);
      }
    } else {
      assert b.rest[..k] + b.rest[k..] == b.rest;
      hide Promise;
    }
  }

  lemma {:induction false} DisconnectKeeps(s: State)
    requires Inv(s) && Enabled(s, Disconnect) && CutSafe(s, Disconnect)
    ensures Inv(Do(s, Disconnect))
  {
    var t, c, n := Do(s, Disconnect), s.conn.value, |s.expirations|;
    forall e: nat | Missing(t, e)
      ensures Alive(s.expirations, s.now, e, n) <= n - s.level
    {
      assert Missing(s, e);
      if c.busy.None? || !c.busy.value.started {
        AliveLater(s.expirations, c.since, s.now, e, n);
      } else {
        EndCovers(s, c, c.busy.value, e);
      }
    }
  }

  /** Cut where only the end of the snapshot is missing, the level still asks for all of it. */
  lemma {:induction false} EndCovers(s: State, c: Session, b: Busy, e: nat)
    requires |s.wanted| == |s.expirations| && Underway(s, c, b) && b.started
    requires IsEnd(Unrecorded(b), b.x.live) && Missing(s, e)
    ensures Alive(s.expirations, s.now, e, |s.expirations|) <= |s.expirations| - s.level
  {
    hide Alive, Unrecorded, Promise, PayloadOf;
    var u, n, top := Unrecorded(b), |s.expirations|, b.x.top;
    if e < top {
      assert e in u;
      EndHoldsAlive(u, b.x.live, e, s.expirations, s.now, top);
      AliveSplit(s.expirations, s.now, e, top, n);
      AliveAtMost(s.expirations, s.now, top, n);
    } else {
      AliveAtMost(s.expirations, s.now, e, n);
    }
  }

  /** The end of a list in order holds everything alive from one of its items on. */
  lemma {:induction false} EndHoldsAlive(u: seq<nat>, live: seq<nat>, e: nat, expirations: seq<int>, t: int, top: nat)
    requires IsEnd(u, live) && Increasing(live) && e in u && top <= |expirations|
    requires forall i: nat :: i < top && expirations[i] >= t ==> i in live
    ensures Alive(expirations, t, e, top) <= |u|
  {
    hide Alive;
    var first := |live| - |u|;
    var q :| 0 <= q < |u| && u[q] == e;
    forall i | e <= i < top && expirations[i] >= t
      ensures i in u
    {
      var p :| 0 <= p < |live| && live[p] == i;
      assert live[first + q] == e;
      assert u[p - first] == i;
    }
    AliveListed(u, expirations, t, e, top);
  }

  lemma {:induction false} StepKeeps(s: State, step: Step)
    requires Inv(s) && Enabled(s, step) && CutSafe(s, step)
    ensures Inv(Do(s, step))
  {
    hide Inv;
    InvShape(s);
    match step
    case Tick(d) => TickKeeps(s, d);
    case Append(expiration, carriesTag) => AppendKeeps(s, expiration, carriesTag);
    case Connect => ConnectKeeps(s);
    case Take => TakeKeeps(s);
    case Enqueue(i) => EnqueueKeeps(s, i);
    case Begin(k) => BeginKeeps(s, k);
    case Receive => ReceiveKeeps(s);
    case AckDone(k) => AckDoneKeeps(s, k);
    case Disconnect => DisconnectKeeps(s);
  }

  lemma {:induction false} InvShape(s: State)
    requires Inv(s)
    ensures |s.wanted| == |s.expirations|
  {
  }

  // ----- Runs ----------------------------------------------------------------------------------

  /** The state after the steps, or nothing when one of them is not enabled. */
  function Run(s: State, steps: seq<Step>): (r: Option<State>)
    requires |s.wanted| == |s.expirations|
    ensures r.Some? ==> |r.value.wanted| == |r.value.expirations|
    decreases |steps|
  {
    if steps == [] then Some(s)
    else if Enabled(s, steps[0]) then Run(Do(s, steps[0]), steps[1..])
    else None
  }

  lemma {:induction false} RunStep(s: State, step: Step, next: State, rest: seq<Step>, t: State)
    requires |s.wanted| == |s.expirations| && Enabled(s, step) && Do(s, step) == next && Run(next, rest) == Some(t)
    ensures Run(s, [step] + rest) == Some(t)
  {
    assert ([step] + rest)[1..] == rest;
  }

  ghost predicate CutsSafe(s: State, steps: seq<Step>)
    requires |s.wanted| == |s.expirations|
    decreases |steps|
  {
    steps != [] && Enabled(s, steps[0]) ==>
      CutSafe(s, steps[0]) && CutsSafe(Do(s, steps[0]), steps[1..])
  }

  /** The channel as a broker would read it now. */
  function Now(s: State): (r: Snapshot) {
    Snapshot(|s.expirations|, LiveBelow(s.expirations, s.now, |s.expirations|))
  }

  /** A client that is not ahead of the channel and whose level asks for everything it misses. */
  ghost predicate CaughtByLevel(s: State) {
    && |s.wanted| == |s.expirations| && s.level <= |s.expirations|
    && forall e: nat :: Missing(s, e) ==> e in FilterByLevel(s.level, Now(s).top, Now(s).live)
  }

  /** Being among the last `top - level` live broadcasts is passing the filter, for any client that
      is not ahead of the channel. */
  lemma {:induction false} NoLossIsCaught(s: State)
    requires |s.wanted| == |s.expirations| && s.level <= |s.expirations|
    ensures NoLoss(s) <==> CaughtByLevel(s)
  {
    hide LiveBelow, FilterByLevel;
    forall e: nat | Missing(s, e)
      ensures Alive(s.expirations, s.now, e, |s.expirations|) <= |s.expirations| - s.level <==>
              e in FilterByLevel(s.level, Now(s).top, Now(s).live)
    {
      AskedForIff(s, e);
    }
  }

  lemma {:induction false} AskedForIff(s: State, e: nat)
    requires |s.wanted| == |s.expirations| && s.level <= |s.expirations|
    requires e < |s.expirations| && s.expirations[e] >= s.now
    ensures Alive(s.expirations, s.now, e, |s.expirations|) <= |s.expirations| - s.level <==>
            e in FilterByLevel(s.level, Now(s).top, Now(s).live)
  {
    var n, live := |s.expirations|, Now(s).live;
    LiveBelowFacts(s.expirations, s.now, n);
    hide LiveBelow, Alive;
    var p :| 0 <= p < |live| && live[p] == e;
    TailAlive(live, p, s.expirations, s.now, n);
    EndHoldsAlive(live[p..], live, e, s.expirations, s.now, n) by {
      assert live[p..][0] == e;
    }
    InFilterIff(s.level, n, live, p);
  }

  lemma {:induction false} InFilterIff(level: int, top: int, live: seq<nat>, p: nat)
    requires Increasing(live) && p < |live| && level <= top
    ensures live[p] in FilterByLevel(level, top, live) <==> |live| - p <= top - level
  {
    var f := FilterByLevel(level, top, live);
    if |live| - p <= top - level {
      AmongLast(level, top, live, p);
    } else {
      assert forall i :: 0 <= i < |f| ==> f[i] == live[|live| - |f| + i] && live[p] < f[i];
    }
  }

  lemma {:induction false} RunKeeps(s: State, steps: seq<Step>)
    requires Inv(s) && CutsSafe(s, steps)
    ensures Run(s, steps).Some? ==> Inv(Run(s, steps).value)
    decreases |steps|
  {
    if steps != [] && Enabled(s, steps[0]) {
      assert CutSafe(s, steps[0]);
      StepKeeps(s, steps[0]);
      hide Inv, CutSafe, Do, Enabled;
      InvShape(Do(s, steps[0]));
      RunKeeps(Do(s, steps[0]), steps[1..]);
    }
  }

  /** No broadcast is lost: whenever the client is disconnected, its level asks for every live
      broadcast meant for it that it has not recorded.  So it is on every run that breaks off
      exchanges only where `CutSafe` allows it. */
  lemma {:induction false} NoBroadcastIsLost(s: State, steps: seq<Step>)
    requires s.conn.None? && CaughtByLevel(s) && CutsSafe(s, steps)
    ensures Run(s, steps).Some? && Run(s, steps).value.conn.None? ==> CaughtByLevel(Run(s, steps).value)
  {
    NoLossIsCaught(s);
    RunKeeps(s, steps);
    if Run(s, steps).Some? && Run(s, steps).value.conn.None? {
      NoLossIsCaught(Run(s, steps).value);
    }
  }

  /** A new client starts at level 0, which asks for everything. */
  lemma {:induction false} NewClientIsCaught(s: State)
    requires |s.wanted| == |s.expirations| && s.level == 0
    ensures CaughtByLevel(s)
  {
    forall e: nat | Missing(s, e)
      ensures Alive(s.expirations, s.now, e, |s.expirations|) <= |s.expirations|
    {
      AliveAtMost(s.expirations, s.now, e, |s.expirations|);
    }
    NoLossIsCaught(s);
  }

  /** When the last part of an exchange is acked, nothing below the top of its snapshot is missing. */
  lemma {:induction false} FinishedExchangeLeavesNothing(s: State, steps: seq<Step>, e: nat)
    requires s.conn.None? && CaughtByLevel(s) && CutsSafe(s, steps) && Run(s, steps).Some?
    requires var t := Run(s, steps).value;
             && Enabled(t, AckDone(0)) && t.conn.value.busy.value.rest == []
             && e < t.conn.value.busy.value.x.top
    ensures !Missing(Do(Run(s, steps).value, AckDone(0)), e)
  {
    NoLossIsCaught(s);
    RunKeeps(s, steps);
    var t := Run(s, steps).value;
    hide Promise, PayloadOf, ValidSnapshot, Run;
    var b := t.conn.value.busy.value;
    assert Unrecorded(b) == [];
    assert !Missing(t, e);
  }

  /** A session with nothing under way whose level is the top level misses nothing, so nothing need
      be fed to it. */
  lemma {:induction false} SkippingIsHarmless(s: State, steps: seq<Step>, e: nat)
    requires s.conn.None? && CaughtByLevel(s) && CutsSafe(s, steps) && Run(s, steps).Some?
    requires var t := Run(s, steps).value;
             t.conn.Some? && t.conn.value.busy.None? && t.conn.value.level == |t.expirations|
    ensures !Missing(Run(s, steps).value, e)
  {
    NoLossIsCaught(s);
    RunKeeps(s, steps);
    var t := Run(s, steps).value;
    hide Run, ValidSnapshots;
    var n, since := |t.expirations|, t.conn.value.since;
    if Missing(t, e) {
      assert Alive(t.expirations, since, e, n) <= 0;
      AliveSplit(t.expirations, since, e, e + 1, n);
    }
  }

  // ----- When breaking off loses nothing -------------------------------------------------------

  ghost predicate AllWanted(s: State) {
    forall i :: 0 <= i < |s.wanted| ==> s.wanted[i]
  }

  /** What an exchange still sends is a part of its snapshot, in order; its very end when every
      payload is for the device. */
  ghost predicate Shape(s: State) {
    s.conn.Some? && s.conn.value.busy.Some? ==>
      var b := s.conn.value.busy.value;
      ShapeOf(s.wanted, b.part + b.rest, b.x.live)
  }

  ghost predicate ShapeOf(wanted: seq<bool>, u: seq<nat>, live: seq<nat>) {
    && Increasing(u)
    && (forall i :: 0 <= i < |u| ==> u[i] in live && u[i] < |wanted| && wanted[u[i]])
    && ((forall i :: 0 <= i < |wanted| ==> wanted[i]) ==> IsEnd(u, live))
  }

  lemma {:induction false} WantedIncreasing(positions: seq<nat>, wanted: seq<bool>)
    requires Increasing(positions)
    ensures Increasing(Wanted(positions, wanted))
  {
    if positions != [] {
      WantedIncreasing(positions[1..], wanted);
      WantedFacts(positions[1..], wanted);
      var w := Wanted(positions[1..], wanted);
      assert forall i :: 0 <= i < |w| ==> w[i] in positions[1..];
      assert forall i :: 0 <= i < |w| ==> positions[0] < w[i];
    }
  }

  lemma {:induction false} WantedAll(positions: seq<nat>, wanted: seq<bool>)
    requires forall i :: 0 <= i < |positions| ==> positions[i] < |wanted| && wanted[positions[i]]
    ensures Wanted(positions, wanted) == positions
  {
    if positions != [] {
      WantedAll(positions[1..], wanted);
    }
  }

  lemma {:induction false} PayloadShape(level: int, x: Snapshot, wanted: seq<bool>)
    requires Increasing(x.live) && forall i :: 0 <= i < |x.live| ==> x.live[i] < |wanted|
    ensures ShapeOf(wanted, PayloadOf(level, x, wanted), x.live)
  {
    var f := FilterByLevel(level, x.top, x.live);
    assert f == x.live[|x.live| - |f|..];
    hide Wanted, FilterByLevel;
    WantedIncreasing(f, wanted);
    WantedFacts(f, wanted);
    if forall i :: 0 <= i < |wanted| ==> wanted[i] {
      WantedAll(f, wanted);
    }
    var u := Wanted(f, wanted);
    forall i | 0 <= i < |u|
      ensures u[i] in x.live && u[i] < |wanted| && wanted[u[i]]
    {
      assert u[i] in f;
    }
  }

  lemma {:induction false} ShapeSuffix(wanted: seq<bool>, a: seq<nat>, b: seq<nat>, live: seq<nat>)
    requires ShapeOf(wanted, a + b, live)
    ensures ShapeOf(wanted, b, live)
  {
    assert forall i :: 0 <= i < |b| ==> b[i] == (a + b)[|a| + i];
  }

  lemma {:induction false} ShapeAppend(wanted: seq<bool>, w: bool, u: seq<nat>, live: seq<nat>)
    requires ShapeOf(wanted, u, live)
    ensures ShapeOf(wanted + [w], u, live)
  {
    if forall i :: 0 <= i < |wanted + [w]| ==> (wanted + [w])[i] {
      assert forall i :: 0 <= i < |wanted| ==> wanted[i] == (wanted + [w])[i];
    }
  }

  lemma {:induction false} StepKeepsShape(s: State, step: Step)
    requires Inv(s) && Enabled(s, step) && Shape(s)
    ensures Shape(Do(s, step))
  {
    hide ShapeOf, PayloadOf, Promise;
    match step
    case Append(_, carriesTag) =>
      if s.conn.Some? && s.conn.value.busy.Some? {
        var b := s.conn.value.busy.value;
        ShapeAppend(s.wanted, carriesTag, b.part + b.rest, b.x.live);
      }
    case Begin(k) =>
      var c := s.conn.value;
      var payload := PayloadOf(c.level, c.queue[0], s.wanted);
      assert ValidSnapshot(s, c.queue[0], c.since, c.top0);
      PayloadShape(c.level, c.queue[0], s.wanted);
      assert payload[..k] + payload[k..] == payload;
    case AckDone(k) =>
      var b := s.conn.value.busy.value;
      ShapeSuffix(s.wanted, b.part, b.rest, b.x.live);
      assert b.rest[..k] + b.rest[k..] == b.rest;
    case _ =>
  }

  /** When every payload is for the device, an exchange may be broken off at any point. */
  lemma {:induction false} AllWantedIsSafe(s: State, step: Step)
    requires Inv(s) && Enabled(s, step) && Shape(s) && AllWanted(s)
    ensures CutSafe(s, step)
  {
    hide Inv;
    if step.Disconnect? && s.conn.value.busy.Some? {
      var b := s.conn.value.busy.value;
      ShapeSuffix(s.wanted, b.part, b.rest, b.x.live);
    }
  }

  lemma {:induction false} AllWantedRunIsSafe(s: State, steps: seq<Step>)
    requires Inv(s) && Shape(s) && AllWanted(s)
    requires forall i :: 0 <= i < |steps| && steps[i].Append? ==> steps[i].carriesTag
    ensures CutsSafe(s, steps)
    decreases |steps|
  {
    if steps != [] && Enabled(s, steps[0]) {
      AllWantedIsSafe(s, steps[0]);
      StepKeeps(s, steps[0]);
      StepKeepsShape(s, steps[0]);
      hide Inv, Shape, CutSafe, Enabled;
      AllWantedRunIsSafe(Do(s, steps[0]), steps[1..]);
    }
  }

  /** A channel whose broadcasts are all for the device never loses one, wherever connections break. */
  lemma {:induction false} NothingIsLostWhenAllWanted(s: State, steps: seq<Step>)
    requires s.conn.None? && CaughtByLevel(s) && AllWanted(s)
    requires forall i :: 0 <= i < |steps| && steps[i].Append? ==> steps[i].carriesTag
    ensures Run(s, steps).Some? && Run(s, steps).value.conn.None? ==> CaughtByLevel(Run(s, steps).value)
  {
    NoLossIsCaught(s);
    AllWantedRunIsSafe(s, steps);
    NoBroadcastIsLost(s, steps);
  }

  lemma {:induction false} ShapeAlong(s: State, steps: seq<Step>)
    requires Inv(s) && Shape(s) && CutsSafe(s, steps)
    ensures Run(s, steps).Some? ==> Shape(Run(s, steps).value)
    decreases |steps|
  {
    if steps != [] && Enabled(s, steps[0]) {
      assert CutSafe(s, steps[0]);
      StepKeeps(s, steps[0]);
      StepKeepsShape(s, steps[0]);
      hide Inv, Shape, CutSafe, Enabled;
      ShapeAlong(Do(s, steps[0]), steps[1..]);
    }
  }

  ghost predicate Within(a: seq<nat>, b: seq<nat>) {
    Increasing(a) && Increasing(b) && forall i :: 0 <= i < |a| ==> a[i] in b
  }

  lemma {:induction false} RankBefore(a: seq<nat>, b: seq<nat>, i: nat, j: nat)
    requires Within(a, b) && i < |a| && j < |b| && a[i] == b[j]
    ensures i <= j
    decreases i
  {
    if i > 0 {
      var k :| 0 <= k < |b| && b[k] == a[i - 1];
      RankBefore(a, b, i - 1, k);
    }
  }

  lemma {:induction false} RankAfter(a: seq<nat>, b: seq<nat>, i: nat, j: nat)
    requires Within(a, b) && i < |a| && j < |b| && a[i] == b[j]
    ensures |a| - i <= |b| - j
    decreases |a| - i
  {
    if i + 1 < |a| {
      var k :| 0 <= k < |b| && b[k] == a[i + 1];
      RankAfter(a, b, i + 1, k);
    }
  }

  /** A list in order within another one is no longer, and of the same length it is the same. */
  lemma {:induction false} WithinLength(a: seq<nat>, b: seq<nat>)
    requires Within(a, b)
    ensures |a| <= |b|
    ensures |a| == |b| ==> a == b
  {
    if a != [] {
      assert a[0] in b;
      var k :| 0 <= k < |b| && b[k] == a[0];
      RankAfter(a, b, 0, k);
    }
    if |a| == |b| {
      forall i | 0 <= i < |a|
        ensures a[i] == b[i]
      {
        var j :| 0 <= j < |b| && b[j] == a[i];
        RankBefore(a, b, i, j);
        RankAfter(a, b, i, j);
      }
    }
  }

  /** The level left by a cut, `top - |u|` for what is still to come, asks for all of it if and only
      if it is the very end of the snapshot. */
  lemma {:induction false} CutLevelCoversIff(u: seq<nat>, live: seq<nat>, top: int)
    requires Increasing(u) && Increasing(live) && forall i :: 0 <= i < |u| ==> u[i] in live
    ensures (forall i :: 0 <= i < |u| ==> u[i] in FilterByLevel(top - |u|, top, live)) <==> IsEnd(u, live)
  {
    WithinLength(u, live);
    if live != [] {
      var end := live[|live| - |u|..];
      assert FilterByLevel(top - |u|, top, live) == end;
      if forall i :: 0 <= i < |u| ==> u[i] in end {
        WithinLength(u, end);
      }
    }
  }

  /** Breaking off an exchange of the latest snapshot, after a part was recorded and while nothing
      of the rest was recorded before, loses nothing if and only if the rest is the very end of the
      snapshot. */
  lemma {:induction false} CutLosesNothingIff(s: State, steps: seq<Step>)
    requires s.conn.None? && CaughtByLevel(s) && CutsSafe(s, steps) && Run(s, steps).Some?
    requires var t := Run(s, steps).value;
             && t.conn.Some? && t.conn.value.busy.Some? && t.conn.value.busy.value.started
             && t.conn.value.busy.value.x == Now(t)
             && forall e :: e in Unrecorded(t.conn.value.busy.value) ==> e !in t.recorded
    ensures var t := Run(s, steps).value;
            var b := t.conn.value.busy.value;
            CaughtByLevel(Do(t, Disconnect)) <==> IsEnd(Unrecorded(b), b.x.live)
  {
    NoLossIsCaught(s);
    RunKeeps(s, steps);
    ShapeAlong(s, steps);
    CutAt(Run(s, steps).value);
  }

  lemma {:induction false} MissingIsRest(t: State, u: seq<nat>, f: seq<nat>)
    requires |t.wanted| == |t.expirations| && Enabled(t, Disconnect) && t.level <= |t.expirations|
    requires f == FilterByLevel(t.level, Now(t).top, Now(t).live)
    requires forall i :: 0 <= i < |u| ==> Missing(t, u[i])
    requires forall e: nat :: Missing(t, e) ==> e in u
    ensures CaughtByLevel(Do(t, Disconnect)) <==> forall i :: 0 <= i < |u| ==> u[i] in f
  {
    hide FilterByLevel, LiveBelow;
    var d := Do(t, Disconnect);
    assert forall e: nat :: Missing(d, e) <==> Missing(t, e);
    assert Now(d) == Now(t);
  }

  /** What is missing when an exchange of the latest snapshot is under way is what is still to come. */
  lemma {:induction false} MissingIsUnrecorded(t: State, b: Busy)
    requires Inv(t) && t.conn.Some? && t.conn.value.busy == Some(b) && b.started && b.x == Now(t)
    ensures t.level == |t.expirations| - |Unrecorded(b)|
    ensures forall e: nat :: Missing(t, e) ==> e in Unrecorded(b)
  {
    hide LiveBelow, Promise, PayloadOf, ValidSnapshot, ValidSnapshots, Unrecorded;
  }

  lemma {:induction false} UnrecordedIsMissing(t: State, u: seq<nat>)
    requires |t.wanted| == |t.expirations| && ShapeOf(t.wanted, u, Now(t).live)
    requires forall e :: e in u ==> e !in t.recorded
    ensures forall i :: 0 <= i < |u| ==> Missing(t, u[i])
    ensures Increasing(Now(t).live)
  {
    LiveBelowFacts(t.expirations, t.now, |t.expirations|);
    hide LiveBelow;
  }

  lemma {:induction false} CutAt(t: State)
    requires Inv(t) && Shape(t)
    requires t.conn.Some? && t.conn.value.busy.Some? && t.conn.value.busy.value.started
    requires t.conn.value.busy.value.x == Now(t)
    requires forall e :: e in Unrecorded(t.conn.value.busy.value) ==> e !in t.recorded
    ensures CaughtByLevel(Do(t, Disconnect)) <==>
            IsEnd(Unrecorded(t.conn.value.busy.value), t.conn.value.busy.value.x.live)
  {
    var b := t.conn.value.busy.value;
    var u, live := Unrecorded(b), b.x.live;
    ShapeSuffix(t.wanted, b.part, b.rest, live);
    MissingIsUnrecorded(t, b);
    UnrecordedIsMissing(t, u);
    hide Inv, LiveBelow, FilterByLevel, IsEnd, Unrecorded, Missing, CaughtByLevel;
    InvShape(t);
    CutLevelCoversIff(u, live, |t.expirations|);
    MissingIsRest(t, u, FilterByLevel(t.level, Now(t).top, Now(t).live));
  }

  /** A broadcast can be lost where `CutSafe` fails: of three broadcasts the first two are for the
      device, the connection breaks after the first part, and the level left asks only for the third. */
  lemma {:induction false} CutLosesABroadcast()
    ensures var s := State(0, [9, 9, 9], [true, true, false], 0, {}, None);
            var steps := [Connect, Take, Enqueue(0), Begin(1), Receive, Disconnect];
            && CaughtByLevel(s) && Run(s, steps).Some?
            && var t := Run(s, steps).value;
               && t.conn.None? && Missing(t, 1) && 1 !in FilterByLevel(t.level, Now(t).top, Now(t).live)
  {
    NewClientIsCaught(State(0, [9, 9, 9], [true, true, false], 0, {}, None));
    BrokenRun();
    LiveOfThree();
    hide Run, LiveBelow, CaughtByLevel;
  }

  lemma {:induction false} BrokenRun()
    ensures var s := State(0, [9, 9, 9], [true, true, false], 0, {}, None);
            Run(s, [Connect, Take, Enqueue(0), Begin(1), Receive, Disconnect]) ==
            Some(s.(level := 2, recorded := {0}))
  {
    var s := State(0, [9, 9, 9], [true, true, false], 0, {}, None);
    var t := s.(level := 2, recorded := {0});
    var x := Snapshot(3, [0, 1, 2]);
    var queued := s.(conn := Some(Session(0, [], [x], None, 0, 3)));
    QueuedToBroken(s, t, x, queued);
    LiveOfThree();
    hide LiveBelow, Run;
    var connected := s.(conn := Some(Session(0, [], [], None, 0, 3)));
    var taken := s.(conn := Some(Session(0, [x], [], None, 0, 3)));
    assert [x][..0] + [x][1..] == [] && [] + [x] == [x];
    var tail := [Begin(1), Receive, Disconnect];
    RunStep(taken, Enqueue(0), queued, tail, t);
    RunStep(connected, Take, taken, [Enqueue(0)] + tail, t);
    RunStep(s, Connect, connected, [Take] + ([Enqueue(0)] + tail), t);
    assert [Connect] + ([Take] + ([Enqueue(0)] + tail)) ==
           [Connect, Take, Enqueue(0), Begin(1), Receive, Disconnect];
  }

  lemma {:induction false} QueuedToBroken(s: State, t: State, x: Snapshot, queued: State)
    requires s == State(0, [9, 9, 9], [true, true, false], 0, {}, None) && t == s.(level := 2, recorded := {0})
    requires x == Snapshot(3, [0, 1, 2]) && queued == s.(conn := Some(Session(0, [], [x], None, 0, 3)))
    ensures Run(queued, [Begin(1), Receive, Disconnect]) == Some(t)
  {
    var begun := s.(conn := Some(Session(0, [], [], Some(Busy(x, [0], [1], false, false)), 0, 3)));
    var received := t.(conn := Some(Session(0, [], [], Some(Busy(x, [0], [1], true, true)), 0, 3)));
    assert Run(t, []) == Some(t);
    PayloadOfThree();
    hide PayloadOf, Run;
    RunStep(received, Disconnect, t, [], t);
    assert (set i | i in [0]) == {0};
    RunStep(begun, Receive, received, [Disconnect], t);
    assert [0, 1][..1] == [0] && [0, 1][1..] == [1] && [x][1..] == [];
    RunStep(queued, Begin(1), begun, [Receive] + [Disconnect], t);
    assert [Begin(1)] + ([Receive] + [Disconnect]) == [Begin(1), Receive, Disconnect];
  }

  lemma {:induction false} LiveOfThree()
    ensures LiveBelow([9, 9, 9], 0, 3) == [0, 1, 2]
  {
    assert LiveBelow([9, 9, 9], 0, 1) == [0];
    assert LiveBelow([9, 9, 9], 0, 2) == [0, 1];
  }

  lemma {:induction false} PayloadOfThree()
    ensures PayloadOf(0, Snapshot(3, [0, 1, 2]), [true, true, false]) == [0, 1]
  {
    var w := [true, true, false];
    assert Wanted([2], w) == [];
    assert Wanted([1, 2], w) == [1];
    assert Wanted([0, 1, 2], w) == [0, 1];
  }

  // ----- Catching up ---------------------------------------------------------------------------

  /** A session that took its snapshot when it began, with the exchange as far as `busy`. */
  function Connected(s: State, level: int, recorded: set<nat>, clientLevel: int, taken: seq<Snapshot>,
                     queue: seq<Snapshot>, busy: Option<Busy>): (r: State)
  {
    s.(level := level, recorded := recorded,
       conn := Some(Session(clientLevel, taken, queue, busy, s.now, |s.expirations|)))
  }

  function Min(a: nat, b: nat): (m: nat) {
    if a < b then a else b
  }

  /** After a part was sent with `n` items left: it is received and acked, and then come parts of these
      lengths, the last of all that is left. */
  function PartSteps(n: nat, cuts: seq<nat>): (r: seq<Step>)
    decreases |cuts|, n
  {
    if n == 0 then [Receive, AckDone(0)]
    else if cuts == [] then [Receive, AckDone(n), Receive, AckDone(0)]
    else [Receive, AckDone(Min(cuts[0], n))] + PartSteps(n - Min(cuts[0], n), cuts[1..])
  }

  lemma {:induction false} ReceiveAndAck(s: State, level: int, recorded: set<nat>, clientLevel: int, b: Busy, k: nat,
                                         steps: seq<Step>, t: State)
    requires |s.wanted| == |s.expirations| && !b.recorded && k <= |b.rest|
    requires var some := recorded + (set e | e in b.part);
             var next := if b.rest == [] then None else Some(Busy(b.x, b.rest[..k], b.rest[k..], false, true));
             Run(Connected(s, b.x.top - |b.rest|, some, b.x.top, [], [], next), steps) == Some(t)
    ensures Run(Connected(s, level, recorded, clientLevel, [], [], Some(b)), [Receive, AckDone(k)] + steps) == Some(t)
  {
    var some := recorded + (set e | e in b.part);
    var next := if b.rest == [] then None else Some(Busy(b.x, b.rest[..k], b.rest[k..], false, true));
    var sent := Connected(s, level, recorded, clientLevel, [], [], Some(b));
    var got := Connected(s, b.x.top - |b.rest|, some, clientLevel, [], [],
                         Some(b.(recorded := true, started := true)));
    var acked := Connected(s, b.x.top - |b.rest|, some, b.x.top, [], [], next);
    assert Do(sent, Receive) == got && Do(got, AckDone(k)) == acked;
    hide Run;
    RunStep(got, AckDone(k), acked, steps, t);
    RunStep(sent, Receive, got, [AckDone(k)] + steps, t);
    assert [Receive] + ([AckDone(k)] + steps) == [Receive, AckDone(k)] + steps;
  }

  lemma {:induction false} RecordsBoth(recorded: set<nat>, part: seq<nat>, rest: seq<nat>)
    ensures recorded + (set e | e in part) + (set e | e in rest) == recorded + (set e | e in part + rest)
  {
  }

  /** However the rest is cut up, all of it is recorded in the end, and both levels are the top level. */
  lemma {:induction false} SendsRest(s: State, level: int, recorded: set<nat>, clientLevel: int, b: Busy,
                                     cuts: seq<nat>)
    requires |s.wanted| == |s.expirations| && !b.recorded
    ensures Run(Connected(s, level, recorded, clientLevel, [], [], Some(b)), PartSteps(|b.rest|, cuts)) ==
            Some(Connected(s, b.x.top, recorded + (set e | e in b.part + b.rest), b.x.top, [], [], None))
    decreases |cuts|, |b.rest|
  {
    if b.rest == [] {
      SendsLast(s, level, recorded, clientLevel, b, cuts);
    } else {
      var n := |b.rest|;
      var some, all := recorded + (set e | e in b.part), recorded + (set e | e in b.part + b.rest);
      var k := if cuts == [] then n else Min(cuts[0], n);
      var later := if cuts == [] then [] else cuts[1..];
      var next := Busy(b.x, b.rest[..k], b.rest[k..], false, true);
      assert next.part + next.rest == b.rest;
      RecordsBoth(recorded, b.part, b.rest);
      SendsRest(s, b.x.top - n, some, b.x.top, next, later);
      assert [Receive, AckDone(k)] + PartSteps(|next.rest|, later) == PartSteps(n, cuts);
      var t := Connected(s, b.x.top, all, b.x.top, [], [], None);
      hide Run, PartSteps;
      ReceiveAndAck(s, level, recorded, clientLevel, b, k, PartSteps(|next.rest|, later), t);
    }
  }

  lemma {:induction false} SendsLast(s: State, level: int, recorded: set<nat>, clientLevel: int, b: Busy,
                                     cuts: seq<nat>)
    requires |s.wanted| == |s.expirations| && !b.recorded && b.rest == []
    ensures Run(Connected(s, level, recorded, clientLevel, [], [], Some(b)), PartSteps(|b.rest|, cuts)) ==
            Some(Connected(s, b.x.top, recorded + (set e | e in b.part + b.rest), b.x.top, [], [], None))
  {
    var t := Connected(s, b.x.top, recorded + (set e | e in b.part), b.x.top, [], [], None);
    var steps: seq<Step> := [];
    assert Run(t, steps) == Some(t);
    assert b.part + b.rest == b.part;
    hide Run;
    ReceiveAndAck(s, level, recorded, clientLevel, b, 0, steps, t);
    assert [Receive, AckDone(0)] + steps == PartSteps(0, cuts);
  }

  /** A client that was disconnected can always catch up, `d` later: its session takes a snapshot of what is
      there now and sends what its level asks for, cut up in any way.  Then nothing is missing, and the session
      is idle. */
  lemma {:induction false} CanCatchUp(s: State, d: nat, first: nat, cuts: seq<nat>) returns (steps: seq<Step>, t: State)
    requires s.conn.None? && CaughtByLevel(s)
    ensures Run(s, steps) == Some(t) && forall i :: 0 <= i < |steps| ==> steps[i] != Disconnect
    ensures t.now == s.now + d && t.expirations == s.expirations && t.wanted == s.wanted
    ensures t.conn.Some? && t.conn.value.busy == None && t.conn.value.queue == []
    ensures forall e :: !Missing(t, e)
  {
    var later := s.(now := s.now + d);
    StaysCaught(s, d);
    var x, payload := Now(later), PayloadOf(s.level, Now(later), s.wanted);
    var sends: seq<Step>;
    sends, t := Sends(later, first, cuts);
    steps := TakesSnapshot(s, d, sends, t);
    WantedFacts(FilterByLevel(s.level, x.top, x.live), s.wanted);
    hide LiveBelow, FilterByLevel, Wanted, Run;
  }

  /** The exchange of a snapshot that the session has in its queue, sent in any parts. */
  lemma {:induction false} Sends(s: State, first: nat, cuts: seq<nat>) returns (steps: seq<Step>, t: State)
    requires |s.wanted| == |s.expirations| && s.level <= |s.expirations|
    ensures Run(Connected(s, s.level, s.recorded, s.level, [], [Now(s)], None), steps) == Some(t)
    ensures forall i :: 0 <= i < |steps| ==> steps[i] != Disconnect
    ensures var payload := PayloadOf(s.level, Now(s), s.wanted);
            var level := if payload == [] then s.level else |s.expirations|;
            t == Connected(s, level, s.recorded + (set e | e in payload), level, [], [], None)
  {
    var x, payload := Now(s), PayloadOf(s.level, Now(s), s.wanted);
    var queued := Connected(s, s.level, s.recorded, s.level, [], [x], None);
    hide LiveBelow, PayloadOf;
    assert [x][1..] == [];
    if payload == [] {
      t := Connected(s, s.level, s.recorded, s.level, [], [], None);
      var none: seq<Step> := [];
      assert Do(queued, Begin(0)) == t && Run(t, none) == Some(t);
      RunStep(queued, Begin(0), t, none, t);
      steps := [Begin(0)] + none;
      assert s.recorded + (set e | e in payload) == s.recorded;
    } else {
      var k := Min(first, |payload|);
      var b := Busy(x, payload[..k], payload[k..], false, false);
      var begun := Connected(s, s.level, s.recorded, s.level, [], [], Some(b));
      assert Do(queued, Begin(k)) == begun;
      assert payload == b.part + b.rest;
      hide Run;
      SendsRest(s, s.level, s.recorded, s.level, b, cuts);
      t := Connected(s, x.top, s.recorded + (set e | e in payload), x.top, [], [], None);
      RunStep(queued, Begin(k), begun, PartSteps(|b.rest|, cuts), t);
      steps := [Begin(k)] + PartSteps(|b.rest|, cuts);
      NoDisconnect(|b.rest|, cuts);
    }
  }

  lemma {:induction false} NoDisconnect(n: nat, cuts: seq<nat>)
    ensures forall i :: 0 <= i < |PartSteps(n, cuts)| ==> PartSteps(n, cuts)[i] != Disconnect
    decreases |cuts|
  {
    if n > 0 && cuts != [] {
      NoDisconnect(n - Min(cuts[0], n), cuts[1..]);
    }
  }

  lemma {:induction false} StaysCaught(s: State, d: nat)
    requires s.conn.None? && CaughtByLevel(s)
    ensures CaughtByLevel(Do(s, Tick(d)))
  {
    NoLossIsCaught(s);
    TickKeeps(s, d);
    NoLossIsCaught(Do(s, Tick(d)));
  }

  lemma {:induction false} TakesSnapshot(s: State, d: nat, sends: seq<Step>, t: State) returns (steps: seq<Step>)
    requires |s.wanted| == |s.expirations| && s.conn.None?
    requires var later := s.(now := s.now + d);
             Run(Connected(later, s.level, s.recorded, s.level, [], [Now(later)], None), sends) == Some(t)
    ensures steps == [Tick(d), Connect, Take, Enqueue(0)] + sends && Run(s, steps) == Some(t)
  {
    var later := s.(now := s.now + d);
    var x := Now(later);
    var queued := Connected(later, s.level, s.recorded, s.level, [], [x], None);
    var taken := Connected(later, s.level, s.recorded, s.level, [x], [], None);
    var connected := Connected(later, s.level, s.recorded, s.level, [], [], None);
    assert [x][..0] + [x][1..] == [] && [] + [x] == [x];
    assert Do(taken, Enqueue(0)) == queued && Do(connected, Take) == taken && Do(later, Connect) == connected;
    hide Run, LiveBelow;
    RunStep(taken, Enqueue(0), queued, sends, t);
    RunStep(connected, Take, taken, [Enqueue(0)] + sends, t);
    RunStep(later, Connect, connected, [Take] + ([Enqueue(0)] + sends), t);
    RunStep(s, Tick(d), later, [Connect] + ([Take] + ([Enqueue(0)] + sends)), t);
    steps := [Tick(d)] + ([Connect] + ([Take] + ([Enqueue(0)] + sends)));
  }

  // ----- The positions and the store -----------------------------------------------------------

  /** Without replace tags the visible entries are those at the live positions. */
  lemma {:induction false} PositionsAreTheSnapshot(es: seq<Entry>, expirations: seq<int>, now: int, n: nat)
    requires |expirations| == |es| && n <= |es|
    requires forall i :: 0 <= i < |es| ==> es[i].meta.expiration == expirations[i] && es[i].meta.replaceTag == ""
    ensures var live := LiveBelow(expirations, now, n);
            && |Live(es[..n], now)| == |live|
            && forall i :: 0 <= i < |live| ==> live[i] < n && Live(es[..n], now)[i] == es[live[i]]
  {
    if n == 0 {
    } else {
      PositionsAreTheSnapshot(es, expirations, now, n - 1);
      LiveGrows(es[..n - 1], es[n - 1], now);
      assert es[..n] == es[..n - 1] + [es[n - 1]];
    }
  }

  lemma {:induction false} LiveGrows(es: seq<Entry>, e: Entry, now: int)
    requires forall i :: 0 <= i < |es| ==> es[i].meta.replaceTag == ""
    ensures Live(es + [e], now) == Live(es, now) + if Expired(e, now) then [] else [e]
  {
    if es == [] {
      assert [e][1..] == [] && es + [e] == [e];
    } else {
      LiveGrows(es[1..], e, now);
      assert (es + [e])[1..] == es[1..] + [e];
    }
  }

  /** The exchange of a snapshot holds, at each index, the broadcast at the live position, and its
      decoded payload has the tag when the broadcast is for the device. */
  ghost predicate Describes(x: BroadcastExchange, snapshot: Snapshot, tag: string, payloads: seq<string>,
                            wanted: seq<bool>) {
    && x.Initialized() && x.topLevel == snapshot.top && |x.notifications| == |snapshot.live|
    && |payloads| == |wanted|
    && forall i :: 0 <= i < |snapshot.live| ==>
         var e := snapshot.live[i];
         && e < |wanted| && x.notifications[i].payload == payloads[e]
         && (tag in x.decoded[i] <==> wanted[e])
  }

  function At(payloads: seq<string>, positions: seq<nat>): (r: seq<string>)
    requires forall i :: 0 <= i < |positions| ==> positions[i] < |payloads|
  {
    seq(|positions|, i requires 0 <= i < |positions| => payloads[positions[i]])
  }

  /** What `Prepare` sends on the system channel is what the transition system says. */
  lemma {:induction false} PrepareSendsPayload(x: BroadcastExchange, snapshot: Snapshot, level: int, tag: string,
                                               payloads: seq<string>, wanted: seq<bool>)
    requires x.chanId == SYSTEM_CHANNEL && Describes(x, snapshot, tag, payloads, wanted)
    ensures forall i :: 0 <= i < |PayloadOf(level, snapshot, wanted)| ==>
              PayloadOf(level, snapshot, wanted)[i] < |payloads|
    ensures PayloadsFor(level, tag, x) == At(payloads, PayloadOf(level, snapshot, wanted))
  {
    var fx, fp := FilterByLevel(level, x.topLevel, x.notifications), FilterByLevel(level, snapshot.top, snapshot.live);
    var first := |snapshot.live| - |fp|;
    assert |fx| == |fp|;
    assert x.decoded[|x.decoded| - |fx|..] == x.decoded[first..];
    assert fx == x.notifications[first..] && fp == snapshot.live[first..];
    TaggedIsWanted(x, snapshot, tag, payloads, wanted, first);
  }

  lemma {:induction false} TaggedIsWanted(x: BroadcastExchange, snapshot: Snapshot, tag: string,
                                          payloads: seq<string>, wanted: seq<bool>, i: nat)
    requires Describes(x, snapshot, tag, payloads, wanted) && i <= |snapshot.live|
    ensures var w := Wanted(snapshot.live[i..], wanted);
            && (forall j :: 0 <= j < |w| ==> w[j] < |payloads|)
            && Tagged(tag, x.notifications[i..], x.decoded[i..]) == At(payloads, w)
    decreases |snapshot.live| - i
  {
    if i == |snapshot.live| {
    } else {
      TaggedIsWanted(x, snapshot, tag, payloads, wanted, i + 1);
      TaggedStep(tag, x.notifications, x.decoded, i);
      assert snapshot.live[i..][0] == snapshot.live[i] && snapshot.live[i..][1..] == snapshot.live[i + 1..];
    }
  }
}
