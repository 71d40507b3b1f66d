/** The splittable messages of protocol/messages.go.

    A Go slice is modelled by the array behind it (`backing`, which nothing here writes to) and a
    window `[off, off + len)` on it.  `Split` relies on re-slicing past the length of the window. */
module Messages {

  /** A unicast notification; strings are byte strings, one `char` a byte. */
  datatype Notification = Notification(appId: string, msgId: string, payload: string)

  const MAX_PAYLOAD_SIZE: nat := 62 * 1024

  /** The length of the JSON text of an empty notification, without its `null` payload. */
  const NOTIFICATION_OVERHEAD: nat := 20

  function PayloadSize(payload: string): (r: nat) {
    |payload|
  }

  function NotificationSize(n: Notification): (r: nat) {
    |n.payload| + |n.appId| + |n.msgId| + NOTIFICATION_OVERHEAD
  }

  // ----- Greedy partitions ---------------------------------------------------------------------

  function Total<T>(items: seq<T>, size: T -> nat): (r: nat) {
    if items == [] then 0 else size(items[0]) + Total(items[1..], size)
  }

  ghost predicate AllFit<T>(items: seq<T>, size: T -> nat) {
    forall i :: 0 <= i < |items| ==> size(items[i]) <= MAX_PAYLOAD_SIZE
  }

  /** How many leading items fit into a message of which `used` bytes are taken. */
  function FitCount<T>(items: seq<T>, size: T -> nat, used: nat := 0): (k: nat)
    ensures k <= |items|
  {
    if items == [] || used + size(items[0]) > MAX_PAYLOAD_SIZE then 0
    else 1 + FitCount(items[1..], size, used + size(items[0]))
  }

  lemma {:induction false} TotalAppend<T>(a: seq<T>, b: seq<T>, size: T -> nat)
    ensures Total(a + b, size) == Total(a, size) + Total(b, size)
  {
    if a == [] {
      assert a + b == b;
    } else {
      assert (a + b)[1..] == a[1..] + b;
      TotalAppend(a[1..], b, size);
    }
  }

  /** The part taken is the longest head within the limit: it fits, and one more item would not. */
  lemma {:induction false} FitCountIsMaximal<T>(items: seq<T>, size: T -> nat, used: nat)
    requires used <= MAX_PAYLOAD_SIZE
    ensures var k := FitCount(items, size, used);
            && used + Total(items[..k], size) <= MAX_PAYLOAD_SIZE
            && (k < |items| ==> used + Total(items[..k + 1], size) > MAX_PAYLOAD_SIZE)
  {
    if items == [] {
    } else if used + size(items[0]) > MAX_PAYLOAD_SIZE {
      assert items[..1] == [items[0]];
    } else {
      FitCountIsMaximal(items[1..], size, used + size(items[0]));
      var k := FitCount(items[1..], size, used + size(items[0]));
      assert items[..k + 1][1..] == items[1..][..k];
      if k < |items| - 1 {
        assert items[..k + 2][1..] == items[1..][..k + 1];
      }
    }
  }

  /** A count with the two properties of the lemma above is the one that is taken. */
  lemma {:induction false} FitCountIsUnique<T>(items: seq<T>, size: T -> nat, k: nat)
    requires k <= |items|
    requires Total(items[..k], size) <= MAX_PAYLOAD_SIZE
    requires k < |items| ==> Total(items[..k + 1], size) > MAX_PAYLOAD_SIZE
    ensures k == FitCount(items, size)
  {
    var f := FitCount(items, size);
    FitCountIsMaximal(items, size, 0);
    if f < k {
      TotalPrefix(items, f + 1, k, size);
    } else if k < f {
      TotalPrefix(items, k + 1, f, size);
    }
  }

  lemma {:induction false} TotalPrefix<T>(items: seq<T>, i: nat, j: nat, size: T -> nat)
    requires i <= j <= |items|
    ensures Total(items[..i], size) <= Total(items[..j], size)
  {
    TotalAppend(items[..i], items[i..j], size);
    assert items[..i] + items[i..j] == items[..j];
  }

  lemma {:induction false} TotalStep<T>(items: seq<T>, i: nat, size: T -> nat)
    requires i < |items|
    ensures Total(items[..i + 1], size) == Total(items[..i], size) + size(items[i])
  {
    assert items[..i + 1] == items[..i] + [items[i]];
    TotalAppend(items[..i], [items[i]], size);
  }

  lemma {:induction false} TotalNone<T>(items: seq<T>, size: T -> nat)
    ensures Total(items[..0], size) == 0
  {
  }

  /** What repeated splitting sends: each part is the longest head of the rest that fits. */
  function Parts<T>(items: seq<T>, size: T -> nat): (parts: seq<seq<T>>)
    requires AllFit(items, size)
    decreases |items|
  {
    var k := FitCount(items, size);
    if k == |items| then [items]
    else [items[..k]] + Parts(items[k..], size)
  }

  /** The part of notifications that is sent next, and what comes after it. */
  function NextPart(ns: seq<Notification>): (r: (seq<Notification>, seq<Notification>))
    ensures r.0 + r.1 == ns
  {
    var k := FitCount(ns, NotificationSize);
    (ns[..k], ns[k..])
  }

  /** A notification that fits alone is a part of its own. */
  lemma {:induction false} NextPartOfOne(n: Notification)
    requires NotificationSize(n) <= MAX_PAYLOAD_SIZE
    ensures NextPart([n]) == ([n], [])
  {
    assert [n][1..] == [];
    assert FitCount([n], NotificationSize) == 1;
    assert [n][..1] == [n];
  }

  function Flatten<T>(parts: seq<seq<T>>): (r: seq<T>) {
    if parts == [] then [] else parts[0] + Flatten(parts[1..])
  }

  ghost predicate IsPartition<T>(parts: seq<seq<T>>, items: seq<T>, size: T -> nat) {
    && |parts| >= 1
    && Flatten(parts) == items
    && forall p :: 0 <= p < |parts| ==> Total(parts[p], size) <= MAX_PAYLOAD_SIZE
  }

  /** The parts put together are the list, in order, and every part is within the limit. */
  lemma {:induction false} PartsPartition<T>(items: seq<T>, size: T -> nat)
    requires AllFit(items, size)
    ensures IsPartition(Parts(items, size), items, size)
    decreases |items|
  {
    FitCountIsMaximal(items, size, 0);
    var k := FitCount(items, size);
    if k == |items| {
      assert items[..k] == items;
      assert Flatten([items]) == items + Flatten<T>([]);
    } else {
      PartsPartition(items[k..], size);
      var rest := Parts(items[k..], size);
      assert ([items[..k]] + rest)[1..] == rest;
    }
  }

  /** Only an empty list has an empty part. */
  lemma {:induction false} PartsNonEmpty<T>(items: seq<T>, size: T -> nat)
    requires AllFit(items, size) && items != []
    ensures forall p :: 0 <= p < |Parts(items, size)| ==> Parts(items, size)[p] != []
    decreases |items|
  {
    var k := FitCount(items, size);
    if k < |items| {
      PartsNonEmpty(items[k..], size);
    }
  }

  lemma {:induction false} PartsStep<T>(items: seq<T>, size: T -> nat)
    requires AllFit(items, size)
    ensures var k := FitCount(items, size);
            && AllFit(items[k..], size)
            && Parts(items, size) == [items[..k]] + (if k == |items| then [] else Parts(items[k..], size))
            && (k < |items| ==> k > 0)
  {
    assert items[..|items|] == items;
  }

  /** Sending the next part of what is left, until nothing is, sends these parts. */
  lemma {:induction false} PartsAreNextParts(ns: seq<Notification>)
    requires AllFit(ns, NotificationSize) && ns != []
    ensures var (part, rest) := NextPart(ns);
            && part != [] && AllFit(rest, NotificationSize)
            && Parts(ns, NotificationSize) == [part] + if rest == [] then [] else Parts(rest, NotificationSize)
  {
    PartsStep(ns, NotificationSize);
  }

  lemma {:induction false} Reslice<T>(s: seq<T>, i: nat, j: nat, k: nat)
    requires i <= j <= |s| && k <= j - i
    ensures s[i..j][..k] == s[i..i + k] && s[i..j][k..] == s[i + k..j]
    ensures s[i..][k..] == s[i + k..]
  {
  }

  /** Taking more from the front never needs more parts. */
  lemma {:induction false} PartsMonotone<T>(items: seq<T>, d: nat, size: T -> nat)
    requires AllFit(items, size) && d <= |items|
    ensures |Parts(items[d..], size)| <= |Parts(items, size)|
    decreases |items|
  {
    hide FitCount, Parts;
    var k := FitCount(items, size);
    PartsStep(items, size);
    PartsStep(items[d..], size);
    if d == 0 {
      assert items[0..] == items;
    } else if d < k {
      FitReachesFurther(items, d, size);
      var f := FitCount(items[d..], size);
      if d + f < |items| {
        PartsMonotone(items[k..], d + f - k, size);
        Reslice(items, d, |items|, f);
        Reslice(items, k, |items|, d + f - k);
      }
    } else if k < |items| {
      PartsMonotone(items[k..], d - k, size);
      Reslice(items, k, |items|, d - k);
    }
  }

  lemma {:induction false} FitReachesFurther<T>(items: seq<T>, d: nat, size: T -> nat)
    requires d <= FitCount(items, size)
    ensures FitCount(items, size) <= d + FitCount(items[d..], size)
  {
    hide FitCount, Total;
    var k := FitCount(items, size);
    FitCountIsMaximal(items, size, 0);
    TotalAppend(items[..d], items[d..k], size);
    assert items[..d] + items[d..k] == items[..k];
    var f := FitCount(items[d..], size);
    FitCountIsMaximal(items[d..], size, 0);
    if d + f < k {
      assert items[d..][..k - d] == items[d..k];
      TotalPrefix(items[d..], f + 1, k - d, size);
    }
  }

  /** Splitting is optimal: no order-preserving partition into parts within the limit has fewer
      parts than repeated splitting produces. */
  lemma {:induction false} PartsAreFewest<T>(parts: seq<seq<T>>, items: seq<T>, size: T -> nat)
    requires AllFit(items, size) && IsPartition(parts, items, size)
    ensures |Parts(items, size)| <= |parts|
    decreases |parts|
  {
    hide FitCount, Parts, Total;
    FitCountIsMaximal(items, size, 0);
    PartsStep(items, size);
    var k := FitCount(items, size);
    if k < |items| {
      var d := |parts[0]|;
      assert items[..d] == parts[0] && items[d..] == Flatten(parts[1..]);
      if d > k {
        TotalPrefix(items, k + 1, d, size);
        assert false;
      }
      PartsAreFewest(parts[1..], items[d..], size);
      PartsMonotone(items[d..], k - d, size);
      Reslice(items, d, |items|, k - d);
    }
  }

  // ----- When splitting ends -------------------------------------------------------------------

  /** What is left to send after `n` parts; a last part leaves nothing. */
  function RestAfter<T>(items: seq<T>, size: T -> nat, n: nat): (r: seq<T>) {
    if n == 0 then items
    else var rest := RestAfter(items, size, n - 1); rest[FitCount(rest, size)..]
  }

  /** `Split` answers `done` on its call number `n`, counting from 0. */
  ghost predicate DoneAt<T>(items: seq<T>, size: T -> nat, n: nat) {
    FitCount(RestAfter(items, size, n), size) == |RestAfter(items, size, n)|
  }

  /** The loop around `Split` ends exactly when no item alone is over the limit.  Otherwise `Split`
      never gets past the first item that is too big. */
  lemma {:induction false} SplittingEndsIffAllFit<T>(items: seq<T>, size: T -> nat)
    ensures (exists n: nat :: DoneAt(items, size, n)) <==> AllFit(items, size)
  {
    if AllFit(items, size) {
      RestShrinks(items, size, |items|);
      assert DoneAt(items, size, |items|);
    } else {
      var i :| 0 <= i < |items| && size(items[i]) > MAX_PAYLOAD_SIZE;
      forall n: nat
        ensures !DoneAt(items, size, n)
      {
        OversizeStays(items, size, i, n);
        var rest := RestAfter(items, size, n);
        var j :| 0 <= j < |rest| && rest[j] == items[i];
        FitStopsAtOversize(rest, size, j, 0);
      }
    }
  }

  lemma {:induction false} RestShrinks<T>(items: seq<T>, size: T -> nat, n: nat)
    requires AllFit(items, size)
    ensures AllFit(RestAfter(items, size, n), size)
    ensures |RestAfter(items, size, n)| <= if n < |items| then |items| - n else 0
  {
    if n > 0 {
      RestShrinks(items, size, n - 1);
    }
  }

  lemma {:induction false} OversizeStays<T>(items: seq<T>, size: T -> nat, i: nat, n: nat)
    requires i < |items| && size(items[i]) > MAX_PAYLOAD_SIZE
    ensures items[i] in RestAfter(items, size, n)
  {
    if n > 0 {
      OversizeStays(items, size, i, n - 1);
      var before := RestAfter(items, size, n - 1);
      var j :| 0 <= j < |before| && before[j] == items[i];
      FitStopsAtOversize(before, size, j, 0);
      var k := FitCount(before, size);
      assert before[k..][j - k] == items[i];
    }
  }

  lemma {:induction false} FitStopsAtOversize<T>(items: seq<T>, size: T -> nat, j: nat, used: nat)
    requires j < |items| && size(items[j]) > MAX_PAYLOAD_SIZE
    ensures FitCount(items, size, used) <= j
  {
    if j > 0 && used + size(items[0]) <= MAX_PAYLOAD_SIZE {
      FitStopsAtOversize(items[1..], size, j - 1, used + size(items[0]));
    }
  }

  // ----- BROADCAST -----------------------------------------------------------------------------

  class BroadcastMsg {
    var topLevel: int
    var backing: seq<string>
    var off: nat
    var len: nat
    var splitting: nat

    constructor (topLevel: int, payloads: seq<string>)
      ensures Valid() && Unsent() == payloads && LevelBefore() == topLevel - |payloads|
    {
      this.topLevel, backing, off, len, splitting := topLevel, payloads, 0, |payloads|, 0;
    }

    ghost predicate HasWindow()
      reads this
    {
      off + len <= |backing|
    }

    /** After a part that is not the last, `splitting` is the length the window had before. */
    ghost predicate Valid()
      reads this
    {
      && HasWindow()
      && (splitting != 0 ==> len <= splitting && off + splitting <= |backing|)
    }

    /** The field `Payloads`. */
    function Payloads(): (r: seq<string>)
      requires HasWindow()
      reads this
    {
      backing[off..off + len]
    }

    ghost function UnsentStart(): (r: nat)
      reads this
    {
      if splitting == 0 then off else off + len
    }

    ghost function UnsentEnd(): (r: nat)
      reads this
    {
      if splitting == 0 then off + len else off + splitting
    }

    /** What the next calls of `Split` still have to produce. */
    ghost function Unsent(): (r: seq<string>)
      requires Valid()
      reads this
    {
      backing[UnsentStart()..UnsentEnd()]
    }

    /** The channel level just before the first unsent payload. */
    ghost function LevelBefore(): (r: int)
      reads this
    {
      if splitting == 0 then topLevel - len else topLevel
    }

    /** The window moves to the longest head of the unsent payloads that fits. */
    method Split() returns (done: bool)
      requires Valid()
      modifies this
      ensures backing == old(backing) && HasWindow()
      ensures off == old(UnsentStart()) && len == FitCount(old(Unsent()), PayloadSize)
      ensures topLevel == old(LevelBefore()) + len
      ensures done <==> len == |old(Unsent())|
      ensures !done ==> Valid() && UnsentStart() == off + len && UnsentEnd() == old(UnsentEnd())
    {
      hide FitCount, Total;
      var prevTop;
      if splitting == 0 {
        prevTop := topLevel - len;
      } else {
        prevTop := topLevel;
        off, len := off + len, splitting - len;
        topLevel := prevTop + len;
      }
      var payloads := Payloads();
      TotalNone(payloads, PayloadSize);
      var size := 0;
      for i := 0 to |payloads|
        invariant size == Total(payloads[..i], PayloadSize) <= MAX_PAYLOAD_SIZE
        invariant unchanged(`splitting) && unchanged(`backing)
        invariant off == old(UnsentStart()) && off + len == old(UnsentEnd()) && len == |payloads|
        invariant topLevel == prevTop + len
      {
        TotalStep(payloads, i, PayloadSize);
        size := size + |payloads[i]|;
        if size > MAX_PAYLOAD_SIZE {
          FitCountIsUnique(payloads, PayloadSize, i);
          topLevel := prevTop + i;
          splitting := |payloads|;
          len := i;
          return false;
        }
      }
      assert payloads[..|payloads|] == payloads;
      FitCountIsUnique(payloads, PayloadSize, |payloads|);
      return true;
    }

    /** Readies the storage for a new message. */
    method Reset()
      modifies this`splitting
      ensures splitting == 0
      ensures HasWindow() ==> Valid() && Unsent() == Payloads() && LevelBefore() == topLevel - len
    {
      splitting := 0;
    }
  }

  // ----- NOTIFICATIONS -------------------------------------------------------------------------

  class NotificationsMsg {
    var backing: seq<Notification>
    var off: nat
    var len: nat
    var splitting: nat

    constructor (notifications: seq<Notification>)
      ensures Valid() && Unsent() == notifications
    {
      backing, off, len, splitting := notifications, 0, |notifications|, 0;
    }

    ghost predicate HasWindow()
      reads this
    {
      off + len <= |backing|
    }

    ghost predicate Valid()
      reads this
    {
      && HasWindow()
      && (splitting != 0 ==> len <= splitting && off + splitting <= |backing|)
    }

    /** The field `Notifications`. */
    function Notifications(): (r: seq<Notification>)
      requires HasWindow()
      reads this
    {
      backing[off..off + len]
    }

    ghost function UnsentStart(): (r: nat)
      reads this
    {
      if splitting == 0 then off else off + len
    }

    ghost function UnsentEnd(): (r: nat)
      reads this
    {
      if splitting == 0 then off + len else off + splitting
    }

    ghost function Unsent(): (r: seq<Notification>)
      requires Valid()
      reads this
    {
      backing[UnsentStart()..UnsentEnd()]
    }

    /** The window moves to the longest head of the unsent notifications that fits. */
    method Split() returns (done: bool)
      requires Valid()
      modifies this
      ensures backing == old(backing) && HasWindow()
      ensures off == old(UnsentStart()) && len == FitCount(old(Unsent()), NotificationSize)
      ensures done <==> len == |old(Unsent())|
      ensures !done ==> Valid() && UnsentStart() == off + len && UnsentEnd() == old(UnsentEnd())
    {
      hide FitCount, Total;
      if splitting != 0 {
        off, len := off + len, splitting - len;
      }
      var notifs := Notifications();
      TotalNone(notifs, NotificationSize);
      var size := 0;
      for i := 0 to |notifs|
        invariant size == Total(notifs[..i], NotificationSize) <= MAX_PAYLOAD_SIZE
        invariant unchanged(`splitting) && unchanged(`backing)
        invariant off == old(UnsentStart()) && off + len == old(UnsentEnd()) && len == |notifs|
      {
        TotalStep(notifs, i, NotificationSize);
        var notif := notifs[i];
        size := size + |notif.payload| + |notif.appId| + |notif.msgId| + NOTIFICATION_OVERHEAD;
        if size > MAX_PAYLOAD_SIZE {
          FitCountIsUnique(notifs, NotificationSize, i);
          splitting := |notifs|;
          len := i;
          return false;
        }
      }
      assert notifs[..|notifs|] == notifs;
      FitCountIsUnique(notifs, NotificationSize, |notifs|);
      return true;
    }

    /** Readies the storage for a new message. */
    method Reset()
      modifies this`splitting
      ensures splitting == 0
      ensures HasWindow() ==> Valid() && Unsent() == Notifications()
    {
      splitting := 0;
    }
  }

  // ----- The session's send loop ---------------------------------------------------------------

  /** The levels carried by the parts of a broadcast: each is the last level minus the number of
      payloads in the parts that follow. */
  function PartLevels(parts: seq<seq<string>>, topLevel: int): (levels: seq<int>)
    ensures |levels| == |parts|
  {
    if parts == [] then []
    else [topLevel - |Flatten(parts[1..])|] + PartLevels(parts[1..], topLevel)
  }

  /** The levels of the parts rise strictly and the last one is the level of the broadcast. */
  lemma {:induction false} PartLevelsRise(parts: seq<seq<string>>, topLevel: int)
    requires parts != [] && forall p :: 0 <= p < |parts| ==> parts[p] != []
    ensures var levels := PartLevels(parts, topLevel);
            && levels[|parts| - 1] == topLevel
            && (forall i, j :: 0 <= i < j < |levels| ==> levels[i] < levels[j])
            && (forall i :: 0 <= i < |levels| ==> topLevel - |Flatten(parts)| < levels[i] <= topLevel)
  {
    if |parts| > 1 {
      PartLevelsRise(parts[1..], topLevel);
    }
  }

  /** The level of a part is that of the part before it plus its length; before the first one comes the level
      of the broadcast less the length of all. */
  lemma {:induction false} PartLevelsCount(parts: seq<seq<string>>, topLevel: int, i: nat)
    requires i < |parts|
    ensures PartLevels(parts, topLevel)[i] ==
            |parts[i]| + if i == 0 then topLevel - |Flatten(parts)| else PartLevels(parts, topLevel)[i - 1]
  {
    if i > 0 {
      PartLevelsCount(parts[1..], topLevel, i - 1);
    }
  }

  lemma {:induction false} PartLevelsStep(items: seq<string>, topLevel: int)
    requires AllFit(items, PayloadSize)
    ensures var k := FitCount(items, PayloadSize);
            && AllFit(items[k..], PayloadSize)
            && PartLevels(Parts(items, PayloadSize), topLevel) ==
               [topLevel - (|items| - k)] +
               (if k == |items| then [] else PartLevels(Parts(items[k..], PayloadSize), topLevel))
  {
    PartsStep(items, PayloadSize);
    var k := FitCount(items, PayloadSize);
    if k < |items| {
      PartsPartition(items[k..], PayloadSize);
      assert Parts(items, PayloadSize)[1..] == Parts(items[k..], PayloadSize);
    } else {
      assert Parts(items, PayloadSize)[1..] == [];
    }
  }

  /** Sends a broadcast part by part, each part acknowledged before the next one. */
  method SendBroadcast(m: BroadcastMsg) returns (parts: seq<seq<string>>, levels: seq<int>)
    requires m.Valid() && AllFit(m.Unsent(), PayloadSize)
    modifies m
    ensures parts == Parts(old(m.Unsent()), PayloadSize)
    ensures levels == PartLevels(parts, old(m.LevelBefore()) + |old(m.Unsent())|)
  {
    hide Parts, PartLevels, FitCount, Flatten;
    ghost var top := m.LevelBefore() + |m.Unsent()|;
    ghost var unsent := m.Unsent();
    parts, levels := [], [];
    var done := false;
    while !done
      invariant AllFit(unsent, PayloadSize)
      invariant done ==> parts == Parts(old(m.Unsent()), PayloadSize)
      invariant done ==> levels == PartLevels(Parts(old(m.Unsent()), PayloadSize), top)
      invariant !done ==> m.Valid() && m.Unsent() == unsent && m.LevelBefore() + |unsent| == top
      invariant !done ==> parts + Parts(unsent, PayloadSize) == Parts(old(m.Unsent()), PayloadSize)
      invariant !done ==> levels + PartLevels(Parts(unsent, PayloadSize), top)
                          == PartLevels(Parts(old(m.Unsent()), PayloadSize), top)
      decreases !done, |unsent|
    {
      PartsStep(unsent, PayloadSize);
      PartLevelsStep(unsent, top);
      done := m.Split();
      Reslice(m.backing, m.off, m.off + |unsent|, m.len);
      parts, levels := parts + [m.Payloads()], levels + [m.topLevel];
      unsent := unsent[m.len..];
    }
  }

  /** Sends notifications part by part, each part acknowledged before the next one. */
  method SendNotifications(m: NotificationsMsg) returns (parts: seq<seq<Notification>>)
    requires m.Valid() && AllFit(m.Unsent(), NotificationSize)
    modifies m
    ensures parts == Parts(old(m.Unsent()), NotificationSize)
  {
    hide Parts, FitCount;
    ghost var unsent := m.Unsent();
    parts := [];
    var done := false;
    while !done
      invariant AllFit(unsent, NotificationSize)
      invariant done ==> parts == Parts(old(m.Unsent()), NotificationSize)
      invariant !done ==> m.Valid() && m.Unsent() == unsent
      invariant !done ==> parts + Parts(unsent, NotificationSize) == Parts(old(m.Unsent()), NotificationSize)
      decreases !done, |unsent|
    {
      PartsStep(unsent, NotificationSize);
      done := m.Split();
      Reslice(m.backing, m.off, m.off + |unsent|, m.len);
      parts := parts + [m.Notifications()];
      unsent := unsent[m.len..];
    }
  }
}
