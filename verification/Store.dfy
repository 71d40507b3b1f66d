/** The store of pending notifications, server/store/store.go and server/store/inmemory.go.

    The code walks two parallel arrays, notifications and metadata.  The specification is about
    sequences of entries, the pairs of the two. */
module Store {
  import opened Sequences
  import opened Messages

  type ChannelId = string

  /** Times are integers; `time.Now()` is a parameter of the operations that call it. */
  datatype Metadata = Metadata(expiration: int, replaceTag: string, obsolete: bool)

  datatype Entry = Entry(notif: Notification, meta: Metadata)

  function Zip(notifications: seq<Notification>, meta: seq<Metadata>): (es: seq<Entry>)
    requires |notifications| == |meta|
    ensures |es| == |meta|
    ensures forall i :: 0 <= i < |es| ==> es[i] == Entry(notifications[i], meta[i])
  {
    seq(|meta|, i requires 0 <= i < |meta| => Entry(notifications[i], meta[i]))
  }

  lemma {:induction false} ZipAppend(ns: seq<Notification>, ms: seq<Metadata>, n: Notification, m: Metadata)
    requires |ns| == |ms|
    ensures Zip(ns + [n], ms + [m]) == Zip(ns, ms) + [Entry(n, m)]
  {
  }

  function Notifs(es: seq<Entry>): (r: seq<Notification>)
    ensures |r| == |es| && forall i :: 0 <= i < |es| ==> r[i] == es[i].notif
  {
    seq(|es|, i requires 0 <= i < |es| => es[i].notif)
  }

  predicate Expired(e: Entry, now: int) {
    e.meta.expiration < now
  }

  /** Both carry the same non-empty replace tag for the same application. */
  predicate SameKey(a: Entry, b: Entry) {
    a.meta.replaceTag != "" && a.meta.replaceTag == b.meta.replaceTag && a.notif.appId == b.notif.appId
  }

  predicate Superseded(e: Entry, later: seq<Entry>, now: int) {
    exists k :: 0 <= k < |later| && !Expired(later[k], now) && SameKey(e, later[k])
  }

  /** The visible entries, in order: unexpired, and no later unexpired entry has the same key. */
  function Live(es: seq<Entry>, now: int): (r: seq<Entry>) {
    if es == [] then []
    else if Expired(es[0], now) || Superseded(es[0], es[1..], now) then Live(es[1..], now)
    else [es[0]] + Live(es[1..], now)
  }

  // ----- Removal by message id -----------------------------------------------------------------

  function Ids(ns: seq<Notification>): (ids: seq<string>)
    ensures |ids| == |ns| && forall i :: 0 <= i < |ns| ==> ids[i] == ns[i].msgId
  {
    seq(|ns|, i requires 0 <= i < |ns| => ns[i].msgId)
  }

  function IdSet(ns: seq<Notification>): (r: set<string>) {
    set n | n in ns :: n.msgId
  }

  /** The notifications whose id is not mentioned in `ids`, in order. */
  function Without(ns: seq<Notification>, ids: set<string>): (r: seq<Notification>) {
    if ns == [] then []
    else if ns[0].msgId in ids then Without(ns[1..], ids)
    else [ns[0]] + Without(ns[1..], ids)
  }

  /** The guard of the fast path: the targets are the head of the list, id for id. */
  predicate IsHead(orig: seq<Notification>, targets: seq<Notification>) {
    && 0 < |targets| <= |orig|
    && forall i :: 0 <= i < |targets| ==> targets[i].msgId == orig[i].msgId
  }

  /** What a removal leaves of a list: by the fast path what comes after the head, and otherwise the
      difference. */
  function Removed(orig: seq<Notification>, targets: seq<Notification>): (r: seq<Notification>) {
    if IsHead(orig, targets) then orig[|targets|..] else Without(orig, IdSet(targets))
  }

  lemma {:induction false} WithoutStep(ns: seq<Notification>, k: nat, ids: set<string>)
    requires k < |ns|
    ensures ns[k].msgId in ids ==> Without(ns[k..], ids) == Without(ns[k + 1..], ids)
    ensures ns[k].msgId !in ids ==> Without(ns[k..], ids) == [ns[k]] + Without(ns[k + 1..], ids)
  {
    assert ns[k..][0] == ns[k] && ns[k..][1..] == ns[k + 1..];
  }

  /** Only the ids at the head decide which way a removal goes. */
  lemma {:induction false} RemovedIff(orig: seq<Notification>, targets: seq<Notification>)
    ensures var head := targets != [] && Ids(targets) <= Ids(orig);
            Removed(orig, targets) ==
            if head then orig[|targets|..] else Without(orig, set n | n in targets :: n.msgId)
  {
    hide Without;
    if IsHead(orig, targets) {
      assert Ids(targets) == Ids(orig)[..|targets|];
    }
    if targets != [] && Ids(targets) <= Ids(orig) {
      assert forall i :: 0 <= i < |targets| ==> Ids(targets)[i] == Ids(orig)[i];
    }
  }

  method FilterOutByMsgId(orig: seq<Notification>, targets: seq<Notification>) returns (r: seq<Notification>)
    ensures r == Removed(orig, targets)
  {
    hide Without;
    var n, t := |orig|, |targets|;
    if t > 0 && n >= t {
      if targets[0].msgId == orig[0].msgId {
        var i := t - 1;
        while i >= 0
          invariant 0 <= i < t
          invariant forall k :: i < k < t ==> targets[k].msgId == orig[k].msgId
        {
          if i == 0 {
            return orig[t..];
          }
          if targets[i].msgId != orig[i].msgId {
            break;
          }
          i := i - 1;
        }
      }
    }
    var ids: set<string> := {};
    for k := 0 to t
      invariant ids == IdSet(targets[..k])
    {
      ids := ids + {targets[k].msgId};
      assert targets[..k + 1] == targets[..k] + [targets[k]];
    }
    assert targets[..t] == targets;
    r := [];
    assert orig[0..] == orig;
    for k := 0 to n
      invariant Without(orig, ids) == r + Without(orig[k..], ids)
    {
      WithoutStep(orig, k, ids);
      if orig[k].msgId !in ids {
        r := r + [orig[k]];
      }
    }
    WithoutAll(orig[n..], ids);
  }

  lemma {:induction false} WithoutAppend(a: seq<Notification>, b: seq<Notification>, ids: set<string>)
    ensures Without(a + b, ids) == Without(a, ids) + Without(b, ids)
  {
    if a == [] {
      assert a + b == b;
    } else {
      assert (a + b)[1..] == a[1..] + b;
      WithoutAppend(a[1..], b, ids);
    }
  }

  lemma {:induction false} WithoutNone(ns: seq<Notification>, t: nat, ids: set<string>)
    requires t <= |ns|
    ensures Without(ns[t..], ids) == ns[t..] <==> forall k :: t <= k < |ns| ==> ns[k].msgId !in ids
    ensures |Without(ns[t..], ids)| <= |ns| - t
    decreases |ns| - t
  {
    hide Without;
    if t == |ns| {
      WithoutAll([], ids);
    } else {
      WithoutStep(ns, t, ids);
      WithoutNone(ns, t + 1, ids);
      assert ns[t..] == [ns[t]] + ns[t + 1..];
    }
  }

  lemma {:induction false} WithoutSubset(ns: seq<Notification>, ids: set<string>)
    ensures forall n :: n in Without(ns, ids) ==> n in ns
  {
    if ns != [] {
      WithoutSubset(ns[1..], ids);
    }
  }

  lemma {:induction false} WithoutAll(ns: seq<Notification>, ids: set<string>)
    requires forall k :: 0 <= k < |ns| ==> ns[k].msgId in ids
    ensures Without(ns, ids) == []
  {
    if ns != [] {
      WithoutAll(ns[1..], ids);
    }
  }

  /** When the fast path is taken it agrees with the set difference exactly when no notification
      after the head repeats one of the target ids. */
  lemma {:induction false} FastPathIff(orig: seq<Notification>, targets: seq<Notification>)
    requires IsHead(orig, targets)
    ensures orig[|targets|..] == Without(orig, IdSet(targets)) <==>
            forall k :: |targets| <= k < |orig| ==> orig[k].msgId !in IdSet(targets)
  {
    hide Without;
    var t, ids := |targets|, IdSet(targets);
    WithoutAppend(orig[..t], orig[t..], ids);
    assert orig[..t] + orig[t..] == orig;
    WithoutAll(orig[..t], ids);
    WithoutNone(orig, t, ids);
  }

  /** With distinct ids, as message ids are, both paths remove exactly the targets. */
  lemma {:induction false} HeadRemoval(orig: seq<Notification>, targets: seq<Notification>)
    requires IsHead(orig, targets) && Distinct(Ids(orig))
    ensures orig[|targets|..] == Without(orig, IdSet(targets))
  {
    FastPathIff(orig, targets);
    assert forall k :: 0 <= k < |orig| ==> Ids(orig)[k] == orig[k].msgId;
  }

  // ----- Visible entries -----------------------------------------------------------------------

  ghost predicate IsLive(es: seq<Entry>, now: int, j: int)
    requires 0 <= j < |es|
  {
    !Expired(es[j], now) && !Superseded(es[j], es[j + 1..], now)
  }

  lemma {:induction false} LiveStep(es: seq<Entry>, now: int, j: nat)
    requires j < |es|
    ensures IsLive(es, now, j) ==> Live(es[j..], now) == [es[j]] + Live(es[j + 1..], now)
    ensures !IsLive(es, now, j) ==> Live(es[j..], now) == Live(es[j + 1..], now)
  {
    assert es[j..][0] == es[j] && es[j..][1..] == es[j + 1..];
  }

  /** The keys of the unexpired entries from `j` on. */
  ghost predicate KeysFrom(keys: set<(string, string)>, es: seq<Entry>, now: int, j: int)
    requires 0 <= j <= |es|
  {
    forall key :: key in keys <==> key.1 != "" && HasKey(es[j..], key, now)
  }

  ghost predicate HasKey(es: seq<Entry>, key: (string, string), now: int) {
    exists k :: 0 <= k < |es| && !Expired(es[k], now) && key == (es[k].notif.appId, es[k].meta.replaceTag)
  }

  lemma {:induction false} KeysStep(keys: set<(string, string)>, es: seq<Entry>, now: int, j: nat)
    requires j < |es| && KeysFrom(keys, es, now, j + 1)
    ensures KeysFrom(if Expired(es[j], now) || es[j].meta.replaceTag == "" then keys
                     else keys + {(es[j].notif.appId, es[j].meta.replaceTag)}, es, now, j)
  {
    var tail, own := es[j + 1..], (es[j].notif.appId, es[j].meta.replaceTag);
    assert es[j..] == [es[j]] + tail;
    forall key: (string, string)
      ensures HasKey(es[j..], key, now) <==> HasKey(tail, key, now) || (!Expired(es[j], now) && key == own)
    {
      if HasKey(tail, key, now) {
        var k :| 0 <= k < |tail| && !Expired(tail[k], now) && key == (tail[k].notif.appId, tail[k].meta.replaceTag);
        assert es[j..][k + 1] == tail[k];
      }
      if !Expired(es[j], now) && key == own {
        assert es[j..][0] == es[j];
      }
    }
  }

  /** One step of the backward scan: the set of keys decides, and the keys grow by one. */
  lemma {:induction false} ScanStep(keys: set<(string, string)>, es: seq<Entry>, now: int, j: nat)
    requires j < |es| && KeysFrom(keys, es, now, j + 1)
    ensures var key := (es[j].notif.appId, es[j].meta.replaceTag);
            && (IsLive(es, now, j) <==> !Expired(es[j], now) && (key.1 == "" || key !in keys))
            && KeysFrom(if Expired(es[j], now) || key.1 == "" then keys else keys + {key}, es, now, j)
  {
    KeysStep(keys, es, now, j);
    var later := es[j + 1..];
    var key := (es[j].notif.appId, es[j].meta.replaceTag);
    if Superseded(es[j], later, now) {
      var k :| 0 <= k < |later| && !Expired(later[k], now) && SameKey(es[j], later[k]);
      assert HasKey(later, key, now);
    }
    if key.1 != "" && HasKey(later, key, now) {
      var k :| 0 <= k < |later| && !Expired(later[k], now) && key == (later[k].notif.appId, later[k].meta.replaceTag);
      assert SameKey(es[j], later[k]);
    }
  }

  lemma {:induction false} ScanStart(es: seq<Entry>, now: int)
    ensures KeysFrom({}, es, now, |es|) && Live(es[|es|..], now) == [] && es[0..] == es
  {
  }

  /** Its time has not passed, and none after it whose time has not passed either has its application
      and its tag, unless it has no tag. */
  ghost predicate Shows(es: seq<Entry>, now: int, i: nat)
    requires i < |es|
  {
    && now <= es[i].meta.expiration
    && forall k :: i < k < |es| && now <= es[k].meta.expiration ==>
         es[i].meta.replaceTag == "" || es[i].meta.replaceTag != es[k].meta.replaceTag
         || es[i].notif.appId != es[k].notif.appId
  }

  lemma {:induction false} ShowsLater(es: seq<Entry>, now: int, i: nat)
    requires 0 < i < |es|
    ensures Shows(es, now, i) <==> Shows(es[1..], now, i - 1)
  {
    assert forall k :: i < k < |es| ==> es[k] == es[1..][k - 1];
  }

  lemma {:induction false} ShowsFirst(es: seq<Entry>, now: int)
    requires es != []
    ensures Shows(es, now, 0) <==> !Expired(es[0], now) && !Superseded(es[0], es[1..], now)
  {
    var rest := es[1..];
    assert forall k :: 0 < k < |es| ==> es[k] == rest[k - 1];
    assert forall k :: 0 <= k < |rest| ==> rest[k] == es[k + 1];
  }

  /** The visible entries are those that show, in their order. */
  lemma {:induction false} VisibleIff(es: seq<Entry>, now: int) returns (at: seq<nat>)
    ensures Positions(at, |es|) && Live(es, now) == Select(es, at)
    ensures forall i :: 0 <= i < |es| ==> (i in at <==> Shows(es, now, i))
  {
    if es == [] {
      at := [];
    } else {
      var rest := VisibleIff(es[1..], now);
      ShowsFirst(es, now);
      at := SelectStep(es, rest, Shows(es, now, 0));
      hide Shows, Superseded, Positions, Select;
      forall i | 0 < i < |es|
        ensures i in at <==> Shows(es, now, i)
      {
        ShowsLater(es, now, i);
      }
    }
  }

  /** The backward scan: marks the expired and the superseded, and counts the others. */
  method MarkObsolete(notifications: seq<Notification>, meta: array<Metadata>, now: int, ghost es: seq<Entry>)
    returns (n: nat)
    requires |notifications| == meta.Length && es == Zip(notifications, meta[..])
    requires forall k :: 0 <= k < meta.Length ==> !meta[k].obsolete
    modifies meta
    ensures forall k :: 0 <= k < meta.Length ==> meta[k] == es[k].meta.(obsolete := !IsLive(es, now, k))
    ensures n == |Live(es, now)|
  {
    hide Live, IsLive, KeysFrom;
    ScanStart(es, now);
    var seenTags: set<(string, string)> := {};
    n := 0;
    var j := meta.Length - 1;
    while j >= 0
      invariant -1 <= j < meta.Length
      invariant forall k :: 0 <= k <= j ==> meta[k] == es[k].meta
      invariant forall k :: j < k < meta.Length ==> meta[k] == es[k].meta.(obsolete := !IsLive(es, now, k))
      invariant n == |Live(es[j + 1..], now)|
      invariant KeysFrom(seenTags, es, now, j + 1)
    {
      LiveStep(es, now, j);
      ScanStep(seenTags, es, now, j);
      if meta[j].expiration < now {
        meta[j] := meta[j].(obsolete := true);
      } else if meta[j].replaceTag != "" {
        var key := (notifications[j].appId, meta[j].replaceTag);
        if key in seenTags {
          assert seenTags + {key} == seenTags;
          meta[j] := meta[j].(obsolete := true);
        } else {
          seenTags := seenTags + {key};
          n := n + 1;
        }
      } else {
        n := n + 1;
      }
      j := j - 1;
    }
  }

  /** Returns the visible notifications, having marked the others in `meta`. */
  method FilterOutObsolete(notifications: seq<Notification>, meta: array<Metadata>, now: int)
    returns (res: seq<Notification>)
    requires |notifications| == meta.Length
    requires forall j :: 0 <= j < meta.Length ==> !meta[j].obsolete
    modifies meta
    ensures var es := Zip(notifications, old(meta[..]));
            && res == Notifs(Live(es, now))
            && (forall k :: 0 <= k < meta.Length ==> meta[k] == es[k].meta.(obsolete := !IsLive(es, now, k)))
  {
    ghost var es := Zip(notifications, meta[..]);
    ScanStart(es, now);
    hide Live, IsLive;
    var n := MarkObsolete(notifications, meta, now, es);
    var out := new Notification[n](_ => Notification("", "", ""));
    ghost var taken: seq<Entry> := [];
    var j := 0;
    for i := 0 to meta.Length
      modifies out
      invariant taken + Live(es[i..], now) == Live(es, now)
      invariant j == |taken|
      invariant forall k :: 0 <= k < j ==> out[k] == taken[k].notif
    {
      LiveStep(es, now, i);
      if !meta[i].obsolete {
        out[j] := notifications[i];
        assert taken + ([es[i]] + Live(es[i + 1..], now)) == taken + [es[i]] + Live(es[i + 1..], now);
        taken := taken + [es[i]];
        j := j + 1;
      }
    }
    assert taken == Live(es, now);
    res := out[..];
  }

  // ----- What the operations do to the entries of a channel ------------------------------------

  datatype ChannelState = ChannelState(topLevel: int, entries: seq<Entry>)

  ghost predicate KeyUnique(es: seq<Entry>) {
    forall i, j :: 0 <= i < j < |es| ==> !SameKey(es[i], es[j])
  }

  ghost predicate AllUnexpired(es: seq<Entry>, now: int) {
    forall i :: 0 <= i < |es| ==> !Expired(es[i], now)
  }

  predicate Matches(e: Entry, appId: string, replaceTag: string) {
    e.notif.appId == appId && (replaceTag == "" || e.meta.replaceTag == replaceTag)
  }

  /** The entries that do not meet the criteria of a scrub. */
  function Unmatched(es: seq<Entry>, appId: string, replaceTag: string): (r: seq<Entry>) {
    if es == [] then []
    else if Matches(es[0], appId, replaceTag) then Unmatched(es[1..], appId, replaceTag)
    else [es[0]] + Unmatched(es[1..], appId, replaceTag)
  }

  /** The entries whose message id is not in `ids`. */
  function WithoutIds(es: seq<Entry>, ids: set<string>): (r: seq<Entry>) {
    if es == [] then []
    else if es[0].notif.msgId in ids then WithoutIds(es[1..], ids)
    else [es[0]] + WithoutIds(es[1..], ids)
  }

  function Unexpired(es: seq<Entry>, now: int): (r: seq<Entry>) {
    if es == [] then []
    else if Expired(es[0], now) then Unexpired(es[1..], now)
    else [es[0]] + Unexpired(es[1..], now)
  }

  lemma {:induction false} LiveAreUnique(es: seq<Entry>, now: int)
    ensures AllUnexpired(Live(es, now), now) && KeyUnique(Live(es, now))
    ensures forall e :: e in Live(es, now) ==> e in es
  {
    if es != [] {
      LiveAreUnique(es[1..], now);
      var rest := Live(es[1..], now);
      if Live(es, now) != rest {
        forall j | 0 <= j < |rest|
          ensures !SameKey(es[0], rest[j])
        {
          assert rest[j] in es[1..];
        }
      }
    }
  }

  lemma {:induction false} LiveOfUnique(es: seq<Entry>, now: int)
    requires KeyUnique(es)
    ensures Live(es, now) == Unexpired(es, now)
  {
    if es != [] {
      LiveOfUnique(es[1..], now);
    }
  }

  lemma {:induction false} UnexpiredAll(es: seq<Entry>, now: int)
    requires AllUnexpired(es, now)
    ensures Unexpired(es, now) == es
  {
    if es != [] {
      UnexpiredAll(es[1..], now);
    }
  }

  lemma {:induction false} UnmatchedSubset(es: seq<Entry>, appId: string, replaceTag: string)
    ensures forall e :: e in Unmatched(es, appId, replaceTag) ==> e in es && !Matches(e, appId, replaceTag)
  {
    if es != [] {
      UnmatchedSubset(es[1..], appId, replaceTag);
    }
  }

  lemma {:induction false} UnmatchedUnique(es: seq<Entry>, appId: string, replaceTag: string)
    requires KeyUnique(es)
    ensures KeyUnique(Unmatched(es, appId, replaceTag))
  {
    if es != [] {
      UnmatchedUnique(es[1..], appId, replaceTag);
      UnmatchedSubset(es[1..], appId, replaceTag);
      var rest := Unmatched(es[1..], appId, replaceTag);
      forall j | 0 <= j < |rest|
        ensures !SameKey(es[0], rest[j])
      {
        assert rest[j] in rest;
        var i :| 0 <= i < |es[1..]| && es[1..][i] == rest[j];
        assert es[1 + i] == rest[j];
      }
    }
  }

  /** A scrub with criteria leaves, of the entries visible to it, those of other applications and, if it
      has a tag, those with another tag, in their order. */
  lemma {:induction false} ScrubLeavesIff(es: seq<Entry>, appId: string, replaceTag: string) returns (at: seq<nat>)
    ensures Positions(at, |es|) && Unmatched(es, appId, replaceTag) == Select(es, at)
    ensures forall i :: 0 <= i < |es| ==>
              (i in at <==> es[i].notif.appId != appId || (replaceTag != "" && es[i].meta.replaceTag != replaceTag))
  {
    if es == [] {
      at := [];
    } else {
      var rest := ScrubLeavesIff(es[1..], appId, replaceTag);
      at := SelectStep(es, rest, !Matches(es[0], appId, replaceTag));
      hide Positions, Select;
    }
  }

  /** Where no entry supersedes another, a scrub leaves the unexpired entries that do not meet the
      criteria, in their order. */
  lemma {:induction false} ScrubOfUnique(es: seq<Entry>, appId: string, replaceTag: string, now: int)
    returns (at: seq<nat>)
    requires KeyUnique(es)
    ensures Positions(at, |es|) && Unmatched(Live(es, now), appId, replaceTag) == Select(es, at)
    ensures forall i :: 0 <= i < |es| ==>
              (i in at <==> now <= es[i].meta.expiration &&
                            (es[i].notif.appId != appId || (replaceTag != "" && es[i].meta.replaceTag != replaceTag)))
  {
    var live := VisibleIff(es, now);
    var among := ScrubLeavesIff(Live(es, now), appId, replaceTag);
    hide Live, Unmatched;
    at := SelectTwice(es, live, among);
    hide Positions;
    forall i | 0 <= i < |es|
      ensures i in live <==> now <= es[i].meta.expiration
    {
      assert forall k :: i < k < |es| ==> !SameKey(es[i], es[k]);
    }
  }

  /** A drop by ids leaves the notifications with other ids, in their order. */
  lemma {:induction false} WithoutLeavesIff(ns: seq<Notification>, ids: set<string>) returns (at: seq<nat>)
    ensures Positions(at, |ns|) && Without(ns, ids) == Select(ns, at)
    ensures forall i :: 0 <= i < |ns| ==> (i in at <==> ns[i].msgId !in ids)
  {
    if ns == [] {
      at := [];
    } else {
      var rest := WithoutLeavesIff(ns[1..], ids);
      at := SelectStep(ns, rest, ns[0].msgId !in ids);
      hide Positions, Select;
    }
  }

  /** A snapshot right after a scrub is the snapshot right before it without the entries that meet
      the criteria. */
  lemma {:induction false} ScrubCommutesWithSnapshot(es: seq<Entry>, now: int, appId: string, replaceTag: string)
    ensures Live(Unmatched(Live(es, now), appId, replaceTag), now) == Unmatched(Live(es, now), appId, replaceTag)
  {
    LiveAreUnique(es, now);
    UnmatchedSubset(Live(es, now), appId, replaceTag);
    UnmatchedUnique(Live(es, now), appId, replaceTag);
    var r := Unmatched(Live(es, now), appId, replaceTag);
    assert forall i :: 0 <= i < |r| ==> r[i] in r;
    LiveOfUnique(r, now);
    UnexpiredAll(r, now);
  }

  /** A scrub without criteria is documented to remove the expired entries only.  It does so
      exactly when no visible entry has an empty application id. */
  lemma {:induction false} PlainScrubIff(live: seq<Entry>)
    ensures Unmatched(live, "", "") == live <==> forall i :: 0 <= i < |live| ==> live[i].notif.appId != ""
  {
    if live != [] {
      PlainScrubIff(live[1..]);
      UnmatchedLength(live[1..], "", "");
    }
  }

  lemma {:induction false} UnmatchedLength(es: seq<Entry>, appId: string, replaceTag: string)
    ensures |Unmatched(es, appId, replaceTag)| <= |es|
  {
    if es != [] {
      UnmatchedLength(es[1..], appId, replaceTag);
    }
  }

  lemma {:induction false} UnmatchedAppend(a: seq<Entry>, e: Entry, appId: string, replaceTag: string)
    ensures Unmatched(a + [e], appId, replaceTag) ==
            if Matches(e, appId, replaceTag) then Unmatched(a, appId, replaceTag)
            else Unmatched(a, appId, replaceTag) + [e]
  {
    if a == [] {
      assert a + [e] == [e];
    } else {
      assert (a + [e])[1..] == a[1..] + [e];
      UnmatchedAppend(a[1..], e, appId, replaceTag);
    }
  }

  /** Removing ids from the paired entries removes the same notifications. */
  lemma {:induction false} WithoutIdsNotifs(es: seq<Entry>, ids: set<string>)
    ensures Notifs(WithoutIds(es, ids)) == Without(Notifs(es), ids)
  {
    if es != [] {
      WithoutIdsNotifs(es[1..], ids);
      var rest := WithoutIds(es[1..], ids);
      assert Notifs(es)[0] == es[0].notif && Notifs(es)[1..] == Notifs(es[1..]);
      assert Notifs([es[0]] + rest) == [es[0].notif] + Notifs(rest);
    }
  }

  lemma {:induction false} WithoutIdsSubset(es: seq<Entry>, ids: set<string>)
    ensures forall e :: e in WithoutIds(es, ids) ==> e in es && e.notif.msgId !in ids
  {
    if es != [] {
      WithoutIdsSubset(es[1..], ids);
    }
  }

  lemma {:induction false} WithoutIdsUnique(es: seq<Entry>, ids: set<string>)
    requires KeyUnique(es)
    ensures KeyUnique(WithoutIds(es, ids))
  {
    if es != [] {
      WithoutIdsUnique(es[1..], ids);
      WithoutIdsSubset(es[1..], ids);
      var rest := WithoutIds(es[1..], ids);
      forall j | 0 <= j < |rest|
        ensures !SameKey(es[0], rest[j])
      {
        assert rest[j] in rest;
        var i :| 0 <= i < |es[1..]| && es[1..][i] == rest[j];
        assert es[1 + i] == rest[j];
      }
    }
  }

  lemma {:induction false} LiveNone(now: int)
    ensures Live([], now) == []
  {
  }

  lemma {:induction false} WithoutIdsNone(ids: set<string>)
    ensures WithoutIds([], ids) == []
  {
  }

  lemma {:induction false} UnmatchedNone(appId: string, replaceTag: string)
    ensures Unmatched([], appId, replaceTag) == []
  {
  }

  /** The map from ids to metadata after the first `i` entries. */
  ghost predicate MetaRecorded(orig: seq<Notification>, meta: seq<Metadata>, metaById: map<string, Metadata>, i: nat)
    requires |orig| == |meta| && i <= |orig|
  {
    && (forall k :: 0 <= k < i ==> orig[k].msgId in metaById)
    && (forall id :: id in metaById ==> !metaById[id].obsolete)
    && (Distinct(Ids(orig)) ==> forall k :: 0 <= k < i ==> metaById[orig[k].msgId] == meta[k])
  }

  lemma {:induction false} MetaRecordedNone(orig: seq<Notification>, meta: seq<Metadata>)
    requires |orig| == |meta|
    ensures MetaRecorded(orig, meta, map[], 0)
  {
  }

  lemma {:induction false} MetaRecordedStep(orig: seq<Notification>, meta: seq<Metadata>, metaById: map<string,
                                            Metadata>, i: nat)
    requires |orig| == |meta| && i < |orig| && !meta[i].obsolete
    requires MetaRecorded(orig, meta, metaById, i)
    ensures MetaRecorded(orig, meta, metaById[orig[i].msgId := meta[i]], i + 1)
  {
    assert forall k :: 0 <= k <= i ==> Ids(orig)[k] == orig[k].msgId;
  }

  /** Every notification the removal returns was in the list, so its metadata is recorded. */
  lemma {:induction false} SurvivorsRecorded(orig: seq<Notification>, meta: seq<Metadata>, targets: seq<Notification>,
                          r: seq<Notification>, metaById: map<string, Metadata>)
    requires |orig| == |meta| && MetaRecorded(orig, meta, metaById, |orig|)
    requires r == Removed(orig, targets)
    ensures forall k :: 0 <= k < |r| ==> r[k] in orig && r[k].msgId in metaById
  {
    hide Without;
    WithoutSubset(orig, IdSet(targets));
    forall k | 0 <= k < |r|
      ensures r[k] in orig && r[k].msgId in metaById
    {
      assert r[k] in r;
    }
  }

  /** With distinct ids, the survivors with the metadata recorded for them are the entries whose id
      is not a target. */
  lemma {:induction false} SurvivorsKeepMeta(orig: seq<Notification>, meta: seq<Metadata>, targets: seq<Notification>,
                          r: seq<Notification>, metaById: map<string, Metadata>, rMeta: seq<Metadata>)
    requires |orig| == |meta| && MetaRecorded(orig, meta, metaById, |orig|)
    requires r == Removed(orig, targets)
    requires |rMeta| == |r|
    requires forall k :: 0 <= k < |r| ==> r[k].msgId in metaById && rMeta[k] == metaById[r[k].msgId]
    ensures forall k :: 0 <= k < |r| ==> !rMeta[k].obsolete
    ensures Distinct(Ids(orig)) ==> Zip(r, rMeta) == WithoutIds(Zip(orig, meta), IdSet(targets))
  {
    hide Without, WithoutIds;
    if Distinct(Ids(orig)) {
      var es := Zip(orig, meta);
      assert Notifs(es) == orig;
      WithoutIdsNotifs(es, IdSet(targets));
      WithoutIdsSubset(es, IdSet(targets));
      if IsHead(orig, targets) {
        HeadRemoval(orig, targets);
      }
      var w := WithoutIds(es, IdSet(targets));
      forall k | 0 <= k < |w|
        ensures w[k] == Zip(r, rMeta)[k]
      {
        assert w[k] in w;
        var i :| 0 <= i < |es| && es[i] == w[k];
        assert r[k] == Notifs(w)[k];
      }
    }
  }

  /** The metadata of the last of the first `i` entries with this id. */
  function LastMeta(es: seq<Entry>, i: nat, id: string): (r: Metadata)
    requires i <= |es|
  {
    if i == 0 then Metadata(0, "", false)
    else if es[i - 1].notif.msgId == id then es[i - 1].meta
    else LastMeta(es, i - 1, id)
  }

  /** What a drop leaves: the notifications that the removal leaves, each with the metadata of the last
      entry of its id. */
  function Dropped(es: seq<Entry>, targets: seq<Notification>): (r: seq<Entry>) {
    var ns := Removed(Notifs(es), targets);
    seq(|ns|, k requires 0 <= k < |ns| => Entry(ns[k], LastMeta(es, |es|, ns[k].msgId)))
  }

  /** The metadata that a survivor of a drop gets is that of an entry of its id with no other one of this
      id after it. */
  lemma {:induction false} MetaIsOfLast(es: seq<Entry>, targets: seq<Notification>, k: nat) returns (i: nat)
    requires k < |Dropped(es, targets)|
    ensures var e := Dropped(es, targets)[k];
            && i < |es| && es[i].notif.msgId == e.notif.msgId && es[i].meta == e.meta
            && forall j :: i < j < |es| ==> es[j].notif.msgId != e.notif.msgId
    ensures Notifs(Dropped(es, targets)) == Removed(Notifs(es), targets)
  {
    hide Without;
    WithoutSubset(Notifs(es), IdSet(targets));
    var n := Removed(Notifs(es), targets)[k];
    assert n in Notifs(es);
    i := LastOfId(es, |es|, n.msgId);
  }

  lemma {:induction false} LastOfId(es: seq<Entry>, n: nat, id: string) returns (i: nat)
    requires n <= |es| && exists j :: 0 <= j < n && es[j].notif.msgId == id
    ensures i < n && es[i].notif.msgId == id && LastMeta(es, n, id) == es[i].meta
    ensures forall j :: i < j < n ==> es[j].notif.msgId != id
  {
    if es[n - 1].notif.msgId == id {
      i := n - 1;
    } else {
      i := LastOfId(es, n - 1, id);
    }
  }

  ghost predicate LastRecorded(es: seq<Entry>, metaById: map<string, Metadata>, i: nat)
    requires i <= |es|
  {
    forall id :: id in metaById ==> metaById[id] == LastMeta(es, i, id)
  }

  lemma {:induction false} NothingRecorded(es: seq<Entry>)
    ensures LastRecorded(es, map[], 0)
  {
  }

  lemma {:induction false} LastRecordedStep(es: seq<Entry>, metaById: map<string, Metadata>, i: nat)
    requires i < |es| && LastRecorded(es, metaById, i)
    ensures LastRecorded(es, metaById[es[i].notif.msgId := es[i].meta], i + 1)
  {
  }

  lemma {:induction false} DropsNothing(targets: seq<Notification>)
    ensures Dropped([], targets) == []
  {
    assert Notifs([]) == [];
  }

  /** The survivors with the metadata recorded for them. */
  lemma {:induction false} SurvivorsRejoined(es: seq<Entry>, targets: seq<Notification>,
                                             metaById: map<string, Metadata>, ns: seq<Notification>, ms: seq<Metadata>)
    requires LastRecorded(es, metaById, |es|) && ns == Removed(Notifs(es), targets) && |ms| == |ns|
    requires forall k :: 0 <= k < |ns| ==> ns[k].msgId in metaById && ms[k] == metaById[ns[k].msgId]
    ensures Zip(ns, ms) == Dropped(es, targets)
  {
    hide Removed, LastMeta;
  }

  // ----- The in-memory store -------------------------------------------------------------------

  class Channel {
    var topLevel: int
    var notifications: seq<Notification>
    var meta: seq<Metadata>

    constructor ()
      ensures Valid() && State() == ChannelState(0, [])
    {
      topLevel, notifications, meta := 0, [], [];
    }

    /** The two lists are paired, and no stored entry is flagged as obsolete. */
    ghost predicate Valid()
      reads this
    {
      |notifications| == |meta| && forall i :: 0 <= i < |meta| ==> !meta[i].obsolete
    }

    ghost function State(): (r: ChannelState)
      requires Valid()
      reads this
    {
      ChannelState(topLevel, Zip(notifications, meta))
    }

    method Append(newNotification: Notification, inc: int, meta1: Metadata)
      requires Valid() && !meta1.obsolete
      modifies this
      ensures Valid()
      ensures State() == ChannelState(old(topLevel) + inc,
                                      old(State()).entries + [Entry(newNotification, meta1)])
    {
      topLevel := topLevel + inc;
      notifications := notifications + [newNotification];
      meta := meta + [meta1];
    }

    /** Removes the expired and superseded entries and those that meet the criteria. */
    method Scrub(appId: string, replaceTag: string, now: int)
      requires Valid()
      modifies this
      ensures Valid() && topLevel == old(topLevel)
      ensures State().entries == Unmatched(Live(old(State()).entries, now), appId, replaceTag)
    {
      ghost var es := State().entries;
      ghost var live := Live(es, now);
      ScanStart(es, now);
      hide Live, IsLive, Unmatched, Zip;
      var flags := new Metadata[|meta|](i requires 0 <= i < |meta| reads this => meta[i]);
      assert flags[..] == meta;
      var kept := FilterOutObsolete(notifications, flags, now);
      var res, resMeta := [], [];
      ghost var taken: seq<Entry> := [];
      var i := 0;
      UnmatchedNone(appId, replaceTag);
      for j := 0 to flags.Length
        modifies {}
        invariant taken + Live(es[j..], now) == live && i == |taken|
        invariant |res| == |resMeta| && Zip(res, resMeta) == Unmatched(taken, appId, replaceTag)
        invariant forall k :: 0 <= k < |resMeta| ==> !resMeta[k].obsolete
      {
        LiveStep(es, now, j);
        if flags[j].obsolete {
          continue;
        }
        assert taken + ([es[j]] + Live(es[j + 1..], now)) == taken + [es[j]] + Live(es[j + 1..], now);
        var notif := kept[i];
        i := i + 1;
        UnmatchedAppend(taken, es[j], appId, replaceTag);
        taken := taken + [es[j]];
        if replaceTag != "" {
          if notif.appId == appId && flags[j].replaceTag == replaceTag {
            continue;
          }
        } else if notif.appId == appId {
          continue;
        }
        ZipAppend(res, resMeta, notif, flags[j]);
        res, resMeta := res + [notif], resMeta + [flags[j]];
      }
      assert taken == live;
      notifications := res;
      meta := resMeta;
    }

    /** Drops the targets by message id.  With distinct ids every survivor keeps its own metadata. */
    method Drop(targets: seq<Notification>)
      requires Valid()
      modifies this
      ensures Valid() && topLevel == old(topLevel)
      ensures State().entries == Dropped(old(State()).entries, targets)
      ensures Distinct(Ids(old(notifications))) ==>
                State().entries == WithoutIds(old(State()).entries, IdSet(targets))
    {
      hide WithoutIds, Without, Zip, MetaRecorded, IsHead, Distinct, Ids, LastRecorded, Dropped;
      ghost var es := State().entries;
      var orig, origMeta := notifications, meta;
      var metaById: map<string, Metadata> := map[];
      MetaRecordedNone(orig, origMeta);
      NothingRecorded(es);
      assert Notifs(es) == orig;
      for i := 0 to |orig|
        modifies {}
        invariant MetaRecorded(orig, origMeta, metaById, i) && LastRecorded(es, metaById, i)
      {
        LastRecordedStep(es, metaById, i);
        MetaRecordedStep(orig, origMeta, metaById, i);
        metaById := metaById[orig[i].msgId := origMeta[i]];
      }
      var ns := FilterOutByMsgId(orig, targets);
      SurvivorsRecorded(orig, origMeta, targets, ns, metaById);
      var resMeta := [];
      for i := 0 to |ns|
        modifies {}
        invariant |resMeta| == i
        invariant forall k :: 0 <= k < i ==> resMeta[k] == metaById[ns[k].msgId]
      {
        resMeta := resMeta + [metaById[ns[i].msgId]];
      }
      SurvivorsKeepMeta(orig, origMeta, targets, ns, metaById, resMeta);
      SurvivorsRejoined(es, targets, metaById, ns, resMeta);
      notifications := ns;
      meta := resMeta;
    }
  }

  class InMemoryPendingStore {
    var store: map<ChannelId, Channel>

    constructor ()
      ensures Valid() && forall id :: StateOf(id) == ChannelState(0, [])
    {
      store := map[];
    }

    ghost predicate Valid()
      reads this, store.Values
    {
      && (forall id :: id in store ==> store[id].Valid())
      && (forall a, b :: a in store && b in store && a != b ==> store[a] != store[b])
    }

    ghost function StateOf(id: ChannelId): (r: ChannelState)
      requires Valid()
      reads this, store.Values
    {
      if id in store then store[id].State() else ChannelState(0, [])
    }

    /** Only the channel `chanId` may be new, and then it is a new object. */
    twostate predicate Grown(chanId: ChannelId)
      reads this
    {
      && store.Keys == old(store.Keys) + {chanId}
      && (forall id :: id in old(store) ==> store[id] == old(store[id]))
      && (chanId !in old(store) ==> fresh(store[chanId]))
    }

    method AppendEntry(chanId: ChannelId, newNotification: Notification, inc: int, meta1: Metadata)
      requires Valid() && !meta1.obsolete
      modifies this, store.Values
      ensures Valid() && Grown(chanId)
      ensures forall id :: id != chanId ==> StateOf(id) == old(StateOf(id))
      ensures var s := old(StateOf(chanId));
              StateOf(chanId) == ChannelState(s.topLevel + inc, s.entries + [Entry(newNotification, meta1)])
    {
      hide Zip;
      var prev;
      if chanId in store {
        prev := store[chanId];
      } else {
        prev := new Channel();
      }
      prev.Append(newNotification, inc, meta1);
      store := store[chanId := prev];
    }

    method AppendToChannel(chanId: ChannelId, payload: string, expiration: int)
      requires Valid()
      modifies this, store.Values
      ensures Valid() && Grown(chanId)
      ensures forall id :: id != chanId ==> StateOf(id) == old(StateOf(id))
      ensures var s := old(StateOf(chanId));
              var e := Entry(Notification("", "", payload), Metadata(expiration, "", false));
              StateOf(chanId) == ChannelState(s.topLevel + 1, s.entries + [e])
    {
      AppendEntry(chanId, Notification("", "", payload), 1, Metadata(expiration, "", false));
    }

    method AppendToUnicastChannel(chanId: ChannelId, appId: string, payload: string, msgId: string, meta: Metadata)
      requires Valid() && !meta.obsolete
      modifies this, store.Values
      ensures Valid() && Grown(chanId)
      ensures forall id :: id != chanId ==> StateOf(id) == old(StateOf(id))
      ensures var s := old(StateOf(chanId));
              var e := Entry(Notification(appId, msgId, payload), meta);
              StateOf(chanId) == ChannelState(s.topLevel, s.entries + [e])
    {
      AppendEntry(chanId, Notification(appId, msgId, payload), 0, meta);
    }

    /** Copies of the two lists of a channel. */
    method GetChannelUnfiltered(chanId: ChannelId)
      returns (topLevel: int, res: seq<Notification>, meta: seq<Metadata>)
      requires Valid()
      ensures |res| == |meta| && ChannelState(topLevel, Zip(res, meta)) == StateOf(chanId)
      ensures forall i :: 0 <= i < |meta| ==> !meta[i].obsolete
    {
      if chanId !in store {
        return 0, [], [];
      }
      var channel := store[chanId];
      return channel.topLevel, channel.notifications, channel.meta;
    }

    method GetChannelSnapshot(chanId: ChannelId, now: int) returns (topLevel: int, res: seq<Notification>)
      requires Valid()
      ensures topLevel == StateOf(chanId).topLevel && res == Notifs(Live(StateOf(chanId).entries, now))
    {
      var meta;
      topLevel, res, meta := GetChannelUnfiltered(chanId);
      var flags := new Metadata[|meta|](i requires 0 <= i < |meta| => meta[i]);
      assert flags[..] == meta;
      res := FilterOutObsolete(res, flags, now);
    }

    /** `Scrub` with up to two criteria: an application id and a replace tag. */
    method Scrub(chanId: ChannelId, criteria: seq<string>, now: int)
      requires Valid() && |criteria| <= 2
      modifies store.Values
      ensures Valid() && store == old(store)
      ensures var s := old(StateOf(chanId));
              var appId := if |criteria| > 0 then criteria[0] else "";
              var replaceTag := if |criteria| > 1 then criteria[1] else "";
              StateOf(chanId) == s.(entries := Unmatched(Live(s.entries, now), appId, replaceTag))
      ensures forall id :: id != chanId ==> StateOf(id) == old(StateOf(id))
    {
      hide Live, Unmatched, Zip;
      LiveNone(now);
      UnmatchedNone(if |criteria| > 0 then criteria[0] else "", if |criteria| > 1 then criteria[1] else "");
      var appId, replaceTag := "", "";
      if |criteria| == 2 {
        replaceTag := criteria[1];
      }
      if |criteria| >= 1 {
        appId := criteria[0];
      }
      if chanId !in store {
        return;
      }
      store[chanId].Scrub(appId, replaceTag, now);
    }

    /** Drops the targets by message id. */
    method DropByMsgId(chanId: ChannelId, targets: seq<Notification>)
      requires Valid()
      modifies store.Values
      ensures Valid() && store == old(store)
      ensures forall id :: id != chanId ==> StateOf(id) == old(StateOf(id))
      ensures var s := old(StateOf(chanId));
              && StateOf(chanId) == s.(entries := Dropped(s.entries, targets))
              && (Distinct(Ids(Notifs(s.entries))) ==>
                    StateOf(chanId) == s.(entries := WithoutIds(s.entries, IdSet(targets))))
    {
      hide WithoutIds, Zip, Dropped;
      WithoutIdsNone(IdSet(targets));
      DropsNothing(targets);
      if chanId !in store {
        return;
      }
      assert Notifs(store[chanId].State().entries) == store[chanId].notifications;
      store[chanId].Drop(targets);
    }
  }
}
