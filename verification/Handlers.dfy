/** The unicast request handler of server/api/handlers.go: quota per application, replace tags and
    clearing of pending notifications. */
module Handlers {
  import opened Sequences
  import opened Messages
  import opened Store

  datatype Unicast = Unicast(appId: string, data: string, replaceTag: string, clearPending: bool, expire: int)

  // ----- What the handler counts before it stores ----------------------------------------------

  predicate Replaces(e: Entry, appId: string, replaceTag: string) {
    e.notif.appId == appId && replaceTag != "" && replaceTag == e.meta.replaceTag
  }

  function ExpiredCount(es: seq<Entry>, now: int): (r: nat) {
    if es == [] then 0 else (if Expired(es[0], now) then 1 else 0) + ExpiredCount(es[1..], now)
  }

  function Replaceable(es: seq<Entry>, appId: string, replaceTag: string, now: int): (r: nat) {
    if es == [] then 0
    else (if !Expired(es[0], now) && Replaces(es[0], appId, replaceTag) then 1 else 0)
         + Replaceable(es[1..], appId, replaceTag, now)
  }

  /** The pending notifications that count against the quota of the application. */
  function ForApp(es: seq<Entry>, appId: string, replaceTag: string, now: int): (r: nat) {
    if es == [] then 0
    else (if !Expired(es[0], now) && es[0].notif.appId == appId && !Replaces(es[0], appId, replaceTag) then 1 else 0)
         + ForApp(es[1..], appId, replaceTag, now)
  }

  lemma {:induction false} CountStep(es: seq<Entry>, i: nat, appId: string, replaceTag: string, now: int)
    requires i < |es|
    ensures ExpiredCount(es[i..], now) == (if Expired(es[i], now) then 1 else 0) + ExpiredCount(es[i + 1..], now)
    ensures Replaceable(es[i..], appId, replaceTag, now) ==
            (if !Expired(es[i], now) && Replaces(es[i], appId, replaceTag) then 1 else 0)
            + Replaceable(es[i + 1..], appId, replaceTag, now)
    ensures ForApp(es[i..], appId, replaceTag, now) ==
            (if !Expired(es[i], now) && es[i].notif.appId == appId && !Replaces(es[i], appId, replaceTag) then 1 else 0)
            + ForApp(es[i + 1..], appId, replaceTag, now)
  {
    assert es[i..][0] == es[i] && es[i..][1..] == es[i + 1..];
  }

  /** The entries `es` left by the scrub that the handler asks for when it has read the entries `seen`.
      The clock is read again by the scrub. */
  function ScrubbedAfter(seen: seq<Entry>, es: seq<Entry>, r: Unicast, now: int, scrubNow: int): (result: seq<Entry>) {
    if r.clearPending then Unmatched(Live(es, scrubNow), r.appId, "")
    else if Replaceable(seen, r.appId, r.replaceTag, now) > 0 then Unmatched(Live(es, scrubNow), r.appId, r.replaceTag)
    else if ExpiredCount(seen, now) > 0 then Unmatched(Live(es, scrubNow), "", "")
    else es
  }

  /** The same when nothing has changed since. */
  function Scrubbed(es: seq<Entry>, r: Unicast, now: int, scrubNow: int): (result: seq<Entry>) {
    ScrubbedAfter(es, es, r, now, scrubNow)
  }

  predicate Accepted(es: seq<Entry>, r: Unicast, max: nat, now: int) {
    r.clearPending || ForApp(es, r.appId, r.replaceTag, now) < max
  }

  function NewEntry(r: Unicast, msgId: string): (result: Entry) {
    Entry(Notification(r.appId, msgId, r.data), Metadata(r.expire, r.replaceTag, false))
  }

  /** What a request makes of the entries of the channel. */
  function AfterUnicast(es: seq<Entry>, r: Unicast, msgId: string, max: nat, now: int, scrubNow: int)
    : (result: seq<Entry>)
  {
    if Accepted(es, r, max, now) then Scrubbed(es, r, now, scrubNow) + [NewEntry(r, msgId)] else es
  }

  method DoUnicast(sto: InMemoryPendingStore, chanId: ChannelId, r: Unicast, msgId: string, max: nat,
                   now: int, scrubNow: int)
    returns (ok: bool)
    requires sto.Valid() && now <= scrubNow
    modifies sto, sto.store.Values
    ensures sto.Valid()
    ensures ok <==> Accepted(old(sto.StateOf(chanId)).entries, r, max, now)
    ensures var s := old(sto.StateOf(chanId));
            sto.StateOf(chanId) == s.(entries := AfterUnicast(s.entries, r, msgId, max, now, scrubNow))
    ensures forall id :: id != chanId ==> sto.StateOf(id) == old(sto.StateOf(id))
  {
    hide ExpiredCount, Replaceable, ForApp, Live, Unmatched;
    ghost var es := sto.StateOf(chanId).entries;
    var _, notifs, meta := sto.GetChannelUnfiltered(chanId);
    var expired, replacing, forApp := 0, 0, 0;
    CountNone(r.appId, r.replaceTag, now);
    assert es[0..] == es;
    for i := 0 to |notifs|
      modifies {}
      invariant expired + ExpiredCount(es[i..], now) == ExpiredCount(es, now)
      invariant replacing + Replaceable(es[i..], r.appId, r.replaceTag, now)
                == Replaceable(es, r.appId, r.replaceTag, now)
      invariant forApp + ForApp(es[i..], r.appId, r.replaceTag, now) == ForApp(es, r.appId, r.replaceTag, now)
    {
      CountStep(es, i, r.appId, r.replaceTag, now);
      if meta[i].expiration < now {
        expired := expired + 1;
        continue;
      }
      if notifs[i].appId == r.appId {
        if r.replaceTag != "" && r.replaceTag == meta[i].replaceTag {
          replacing := replacing + 1;
          continue;
        }
        forApp := forApp + 1;
      }
    }
    assert es[|es|..] == [];
    var criteria := [];
    if r.clearPending {
      criteria := [r.appId];
    } else if forApp >= max {
      return false;
    } else if replacing > 0 {
      criteria := [r.appId, r.replaceTag];
    }
    if expired > 0 || criteria != [] {
      sto.Scrub(chanId, criteria, scrubNow);
    }
    sto.AppendToUnicastChannel(chanId, r.appId, r.data, msgId, Metadata(r.expire, r.replaceTag, false));
    return true;
  }

  lemma {:induction false} CountNone(appId: string, replaceTag: string, now: int)
    ensures ExpiredCount([], now) == Replaceable([], appId, replaceTag, now) == ForApp([], appId, replaceTag, now) == 0
  {
  }

  // ----- Quota and uniqueness of replace tags --------------------------------------------------

  /** All stored entries of an application, visible or not. */
  function Stored(es: seq<Entry>, appId: string): (r: nat) {
    if es == [] then 0 else (if es[0].notif.appId == appId then 1 else 0) + Stored(es[1..], appId)
  }

  /** No application stores more than `max` entries, and no two entries have the same key. */
  ghost predicate Orderly(es: seq<Entry>, max: nat) {
    KeyUnique(es) && forall appId :: Stored(es, appId) <= max
  }

  lemma {:induction false} StoredAppend(es: seq<Entry>, e: Entry, appId: string)
    ensures Stored(es + [e], appId) == Stored(es, appId) + if e.notif.appId == appId then 1 else 0
  {
    if es == [] {
      assert es + [e] == [e];
    } else {
      assert (es + [e])[1..] == es[1..] + [e];
      StoredAppend(es[1..], e, appId);
    }
  }

  lemma {:induction false} StoredAfterScrub(es: seq<Entry>, a: string, t: string, scrubNow: int, appId: string)
    ensures Stored(Unmatched(Live(es, scrubNow), a, t), appId) <= Stored(es, appId)
  {
    if es != [] {
      StoredAfterScrub(es[1..], a, t, scrubNow, appId);
    }
  }

  lemma {:induction false} ClearedApp(es: seq<Entry>, appId: string)
    ensures Stored(Unmatched(es, appId, ""), appId) == 0
  {
    if es != [] {
      ClearedApp(es[1..], appId);
    }
  }

  /** After the scrub for a replace tag, what the application stores was counted against its quota. */
  lemma {:induction false} TagScrubCount(es: seq<Entry>, appId: string, tag: string, now: int, scrubNow: int)
    requires now <= scrubNow && tag != ""
    ensures Stored(Unmatched(Live(es, scrubNow), appId, tag), appId) <= ForApp(es, appId, tag, now)
  {
    if es != [] {
      TagScrubCount(es[1..], appId, tag, now, scrubNow);
    }
  }

  lemma {:induction false} PlainScrubCount(es: seq<Entry>, appId: string, tag: string, now: int, scrubNow: int)
    requires now <= scrubNow && Replaceable(es, appId, tag, now) == 0
    ensures Stored(Unmatched(Live(es, scrubNow), "", ""), appId) <= ForApp(es, appId, tag, now)
  {
    if es != [] {
      PlainScrubCount(es[1..], appId, tag, now, scrubNow);
    }
  }

  lemma {:induction false} NoScrubCount(es: seq<Entry>, appId: string, tag: string, now: int)
    requires Replaceable(es, appId, tag, now) == 0 && ExpiredCount(es, now) == 0
    ensures Stored(es, appId) == ForApp(es, appId, tag, now)
    ensures forall e :: e in es ==> !Expired(e, now) && !Replaces(e, appId, tag)
  {
    if es != [] {
      NoScrubCount(es[1..], appId, tag, now);
    }
  }

  lemma {:induction false} NoneReplaceable(es: seq<Entry>, appId: string, tag: string, now: int)
    requires Replaceable(es, appId, tag, now) == 0
    ensures forall e :: e in es && !Expired(e, now) ==> !Replaces(e, appId, tag)
  {
    if es != [] {
      NoneReplaceable(es[1..], appId, tag, now);
    }
  }

  /** The scrub keeps the keys unique and removes every entry the new one would supersede, also when
      entries were dropped since they were read. */
  lemma {:induction false} ScrubMakesRoom(seen: seq<Entry>, es: seq<Entry>, r: Unicast, now: int, scrubNow: int)
    requires now <= scrubNow && KeyUnique(es) && forall e :: e in es ==> e in seen
    ensures var left := ScrubbedAfter(seen, es, r, now, scrubNow);
            && KeyUnique(left)
            && forall e :: e in left ==> e in es && !Replaces(e, r.appId, r.replaceTag)
  {
    hide Live, Unmatched, Replaceable, ExpiredCount;
    var live := Live(es, scrubNow);
    LiveAreUnique(es, scrubNow);
    var t := if r.clearPending then "" else r.replaceTag;
    UnmatchedUnique(live, r.appId, t);
    UnmatchedSubset(live, r.appId, t);
    UnmatchedUnique(live, "", "");
    UnmatchedSubset(live, "", "");
    if Replaceable(seen, r.appId, r.replaceTag, now) == 0 {
      NoneReplaceable(seen, r.appId, r.replaceTag, now);
      if ExpiredCount(seen, now) == 0 {
        NoScrubCount(seen, r.appId, r.replaceTag, now);
      }
      forall e | e in live
        ensures !Replaces(e, r.appId, r.replaceTag)
      {
        var i :| 0 <= i < |live| && live[i] == e;
      }
    }
  }

  lemma {:induction false} ReplaceableNeedsTag(es: seq<Entry>, appId: string, now: int)
    ensures Replaceable(es, appId, "", now) == 0
  {
    if es != [] {
      ReplaceableNeedsTag(es[1..], appId, now);
    }
  }

  lemma {:induction false} ScrubKeepsQuota(es: seq<Entry>, r: Unicast, max: nat, now: int, scrubNow: int)
    requires now <= scrubNow && max >= 1 && Accepted(es, r, max, now)
    ensures Stored(Scrubbed(es, r, now, scrubNow), r.appId) < max
  {
    hide Live, Unmatched, Stored, ForApp, Replaceable, ExpiredCount;
    if r.clearPending {
      ClearedApp(Live(es, scrubNow), r.appId);
    } else if Replaceable(es, r.appId, r.replaceTag, now) > 0 {
      ReplaceableNeedsTag(es, r.appId, now);
      TagScrubCount(es, r.appId, r.replaceTag, now, scrubNow);
    } else if ExpiredCount(es, now) > 0 {
      PlainScrubCount(es, r.appId, r.replaceTag, now, scrubNow);
    } else {
      NoScrubCount(es, r.appId, r.replaceTag, now);
    }
  }

  /** Every request keeps the quota of every application and the uniqueness of the keys. */
  lemma {:induction false} UnicastKeepsOrder(es: seq<Entry>, r: Unicast, msgId: string, max: nat, now: int,
                                             scrubNow: int)
    requires now <= scrubNow && max >= 1 && Orderly(es, max)
    ensures Orderly(AfterUnicast(es, r, msgId, max, now, scrubNow), max)
  {
    hide Live, Unmatched, Stored, ScrubbedAfter;
    if Accepted(es, r, max, now) {
      var kept, e := Scrubbed(es, r, now, scrubNow), NewEntry(r, msgId);
      ScrubMakesRoom(es, es, r, now, scrubNow);
      ScrubKeepsQuota(es, r, max, now, scrubNow);
      forall i | 0 <= i < |kept|
        ensures !SameKey(kept[i], e)
      {
        assert kept[i] in kept;
      }
      forall appId
        ensures Stored(kept + [e], appId) <= max
      {
        StoredAppend(kept, e, appId);
        ScrubbedStored(es, r, now, scrubNow, appId);
      }
    }
  }

  lemma {:induction false} ScrubbedStored(es: seq<Entry>, r: Unicast, now: int, scrubNow: int, appId: string)
    ensures Stored(Scrubbed(es, r, now, scrubNow), appId) <= Stored(es, appId)
  {
    StoredAfterScrub(es, r.appId, "", scrubNow, appId);
    StoredAfterScrub(es, r.appId, r.replaceTag, scrubNow, appId);
    StoredAfterScrub(es, "", "", scrubNow, appId);
  }

  // ----- What a request refuses, removes and keeps ---------------------------------------------

  /** A request is refused if and only if it clears nothing and its application already has `max` unexpired
      entries, not counting those it replaces. */
  lemma {:induction false} RefusedIff(es: seq<Entry>, r: Unicast, max: nat, now: int) returns (counted: seq<nat>)
    ensures Positions(counted, |es|)
    ensures forall i :: 0 <= i < |es| ==>
              (i in counted <==> now <= es[i].meta.expiration && es[i].notif.appId == r.appId
                                 && (r.replaceTag == "" || es[i].meta.replaceTag != r.replaceTag))
    ensures !Accepted(es, r, max, now) <==> !r.clearPending && |counted| >= max
  {
    counted := Counted(es, r, now);
  }

  lemma {:induction false} Counted(es: seq<Entry>, r: Unicast, now: int) returns (at: seq<nat>)
    ensures Positions(at, |es|) && |at| == ForApp(es, r.appId, r.replaceTag, now)
    ensures forall i :: 0 <= i < |es| ==>
              (i in at <==> now <= es[i].meta.expiration && es[i].notif.appId == r.appId
                            && (r.replaceTag == "" || es[i].meta.replaceTag != r.replaceTag))
  {
    if es == [] {
      at := [];
    } else {
      var rest := Counted(es[1..], r, now);
      var e := es[0];
      at := SelectStep(es, rest, !Expired(e, now) && e.notif.appId == r.appId && !Replaces(e, r.appId, r.replaceTag));
      hide Positions;
      assert |Select(es, at)| == |at| && |Select(es[1..], rest)| == |rest|;
    }
  }

  /** The request is to clear the application of the entry, or has its application and its tag. */
  ghost predicate AskedToGo(e: Entry, r: Unicast) {
    && e.notif.appId == r.appId
    && (r.clearPending || (r.replaceTag != "" && e.meta.replaceTag == r.replaceTag))
  }

  ghost predicate SomeExpired(es: seq<Entry>, now: int) {
    exists i :: 0 <= i < |es| && es[i].meta.expiration < now
  }

  ghost predicate SomeToGo(es: seq<Entry>, r: Unicast, now: int) {
    exists i :: 0 <= i < |es| && now <= es[i].meta.expiration && AskedToGo(es[i], r)
  }

  lemma {:induction false} ExpiredCountIff(es: seq<Entry>, now: int)
    ensures ExpiredCount(es, now) > 0 <==> SomeExpired(es, now)
  {
    if es != [] {
      ExpiredCountIff(es[1..], now);
      assert es == [es[0]] + es[1..];
    }
  }

  lemma {:induction false} ReplaceableIff(es: seq<Entry>, r: Unicast, now: int)
    requires !r.clearPending
    ensures Replaceable(es, r.appId, r.replaceTag, now) > 0 <==> SomeToGo(es, r, now)
  {
    if es != [] {
      ReplaceableIff(es[1..], r, now);
      assert es == [es[0]] + es[1..];
    }
  }

  /** What an accepted request makes of the channel.  The new entry is last, and before it stay entries in
      their order.  Of those that have not expired when the request scrubs, exactly those go that it asks to
      go, except that a scrub for expired entries alone also takes those with an empty application id.
      Expired ones stay only if there is no scrub. */
  lemma {:induction false} RequestLeavesIff(es: seq<Entry>, r: Unicast, msgId: string, max: nat, now: int,
                                            scrubNow: int) returns (kept: seq<nat>)
    requires now <= scrubNow && KeyUnique(es) && Accepted(es, r, max, now)
    ensures Positions(kept, |es|)
    ensures AfterUnicast(es, r, msgId, max, now, scrubNow) ==
            Select(es, kept) + [Entry(Notification(r.appId, msgId, r.data), Metadata(r.expire, r.replaceTag, false))]
    ensures var plain := !r.clearPending && !SomeToGo(es, r, now) && SomeExpired(es, now);
            forall i :: 0 <= i < |es| && scrubNow <= es[i].meta.expiration ==>
              (i in kept <==> !AskedToGo(es[i], r) && !(plain && es[i].notif.appId == ""))
    ensures forall i :: 0 <= i < |es| && es[i].meta.expiration < scrubNow ==>
              (i in kept <==> !r.clearPending && !SomeToGo(es, r, now) && !SomeExpired(es, now))
  {
    hide Live, Unmatched, ExpiredCount, Replaceable, KeyUnique;
    ExpiredCountIff(es, now);
    if r.clearPending {
      kept := ScrubOfUnique(es, r.appId, "", scrubNow);
    } else {
      ReplaceableIff(es, r, now);
      if SomeToGo(es, r, now) {
        kept := ScrubOfUnique(es, r.appId, r.replaceTag, scrubNow);
      } else if SomeExpired(es, now) {
        kept := ScrubOfUnique(es, "", "", scrubNow);
      } else {
        kept := SelectAll(es);
      }
    }
  }

  /** So a request removes an unexpired entry that it does not ask to go if and only if it scrubs for expired
      entries alone and some unexpired entry has an empty application id. */
  lemma {:induction false} RemovesUnaskedIff(es: seq<Entry>, r: Unicast, msgId: string, max: nat, now: int,
                                             scrubNow: int) returns (kept: seq<nat>)
    requires now <= scrubNow && KeyUnique(es) && Accepted(es, r, max, now)
    ensures Positions(kept, |es|)
    ensures AfterUnicast(es, r, msgId, max, now, scrubNow) == Select(es, kept) + [NewEntry(r, msgId)]
    ensures (exists i :: 0 <= i < |es| && scrubNow <= es[i].meta.expiration && !AskedToGo(es[i], r) && i !in kept)
            <==> && !r.clearPending && !SomeToGo(es, r, now) && SomeExpired(es, now)
                 && exists i :: 0 <= i < |es| && scrubNow <= es[i].meta.expiration && es[i].notif.appId == ""
  {
    kept := RequestLeavesIff(es, r, msgId, max, now, scrubNow);
    hide AfterUnicast, Accepted, SomeExpired, KeyUnique;
  }

  // ----- Over any sequence of operations on a channel ------------------------------------------

  /** The operations that change a unicast channel: requests, and drops of acknowledged ids. */
  datatype ChannelOp =
    | Request(r: Unicast, msgId: string, now: int, delay: nat)
    | Drop(ids: set<string>)

  function Apply(es: seq<Entry>, ops: seq<ChannelOp>, max: nat): (r: seq<Entry>) {
    if ops == [] then es
    else
      var before := Apply(es, ops[..|ops| - 1], max);
      match ops[|ops| - 1]
      case Request(r, msgId, now, delay) => AfterUnicast(before, r, msgId, max, now, now + delay)
      case Drop(ids) => WithoutIds(before, ids)
  }

  lemma {:induction false} DropKeepsOrder(es: seq<Entry>, ids: set<string>, max: nat)
    requires Orderly(es, max)
    ensures Orderly(WithoutIds(es, ids), max)
  {
    forall appId
      ensures Stored(WithoutIds(es, ids), appId) <= max
    {
      DropStored(es, ids, appId);
      assert Stored(es, appId) <= max;
    }
    WithoutIdsUnique(es, ids);
  }

  lemma {:induction false} DropStored(es: seq<Entry>, ids: set<string>, appId: string)
    ensures Stored(WithoutIds(es, ids), appId) <= Stored(es, appId)
  {
    if es != [] {
      DropStored(es[1..], ids, appId);
    }
  }

  /** Over every sequence of requests and drops, starting from an empty channel, no application
      ever stores more than `max` entries and no two stored entries share a key. */
  lemma {:induction false} ChannelsStayOrderly(ops: seq<ChannelOp>, max: nat)
    requires max >= 1
    ensures Orderly(Apply([], ops, max), max)
  {
    if ops != [] {
      hide AfterUnicast, WithoutIds, Orderly;
      var before := Apply([], ops[..|ops| - 1], max);
      ChannelsStayOrderly(ops[..|ops| - 1], max);
      match ops[|ops| - 1]
      case Request(r, msgId, now, delay) => UnicastKeepsOrder(before, r, msgId, max, now, now + delay);
      case Drop(ids) => DropKeepsOrder(before, ids, max);
    } else {
      assert forall appId :: Stored([], appId) == 0;
    }
  }
}
