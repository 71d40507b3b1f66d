/** The broadcast exchange of server/broker/exchanges.go. */
module Exchanges {
  import opened Sequences
  import opened Messages
  import opened Store
  import opened ChannelIds

  /** The pending items a client at `clientLevel` lacks: the last `topLevel - clientLevel` of them.
      A client that is too far ahead gets the last one. */
  function FilterByLevel<T>(clientLevel: int, topLevel: int, notifs: seq<T>): (r: seq<T>) {
    var c := |notifs|;
    if c == 0 then []
    else
      var delta := if topLevel - clientLevel < 0 then 1 else topLevel - clientLevel;
      if delta < c then notifs[c - delta..] else notifs
  }

  /** A snapshot of a channel; `decoded` holds the keys of the decoded payload of each item. */
  datatype BroadcastExchange = BroadcastExchange(
    chanId: ChannelId, topLevel: int, notifications: seq<Notification>, decoded: seq<set<string>>)
  {
    ghost predicate Initialized() {
      |decoded| == |notifications|
    }
  }

  /** The payloads that carry the tag. */
  function Tagged(tag: string, notifs: seq<Notification>, decoded: seq<set<string>>): (r: seq<string>)
    requires |notifs| == |decoded|
  {
    if notifs == [] then []
    else if tag in decoded[0] then [notifs[0].payload] + Tagged(tag, notifs[1..], decoded[1..])
    else Tagged(tag, notifs[1..], decoded[1..])
  }

  function Payloads(notifs: seq<Notification>): (r: seq<string>)
    ensures |r| == |notifs| && forall i :: 0 <= i < |r| ==> r[i] == notifs[i].payload
  {
    seq(|notifs|, i requires 0 <= i < |notifs| => notifs[i].payload)
  }

  /** The payloads a session at `level` gets out of an exchange. */
  function PayloadsFor(level: int, tag: string, x: BroadcastExchange): (r: seq<string>)
    requires x.Initialized()
  {
    var notifs := FilterByLevel(level, x.topLevel, x.notifications);
    if x.chanId == SYSTEM_CHANNEL then Tagged(tag, notifs, x.decoded[|x.decoded| - |notifs|..])
    else Payloads(notifs)
  }

  lemma {:induction false} TaggedStep(tag: string, notifs: seq<Notification>, decoded: seq<set<string>>, i: nat)
    requires |notifs| == |decoded| && i < |notifs|
    ensures Tagged(tag, notifs[i..], decoded[i..]) ==
            if tag in decoded[i] then [notifs[i].payload] + Tagged(tag, notifs[i + 1..], decoded[i + 1..])
            else Tagged(tag, notifs[i + 1..], decoded[i + 1..])
  {
    assert notifs[i..][1..] == notifs[i + 1..] && decoded[i..][1..] == decoded[i + 1..];
  }

  lemma {:induction false} TaggedNone(tag: string)
    ensures Tagged(tag, [], []) == []
  {
  }

  /** The filter by level leaves nothing if and only if nothing is pending or the client has the top
      level. */
  lemma {:induction false} NothingLeftIff<T>(clientLevel: int, topLevel: int, notifs: seq<T>)
    ensures FilterByLevel(clientLevel, topLevel, notifs) == [] <==> notifs == [] || clientLevel == topLevel
  {
  }

  /** What the filter leaves is an end of the list: of the length the client lacks, if there is so much, and
      for a client that is ahead of the channel just the last item. */
  lemma {:induction false} FilterIsEnd<T>(clientLevel: int, topLevel: int, notifs: seq<T>)
    ensures var r := FilterByLevel(clientLevel, topLevel, notifs);
            && |r| <= |notifs| && r == notifs[|notifs| - |r|..]
            && (clientLevel <= topLevel <= clientLevel + |notifs| ==> |r| == topLevel - clientLevel)
            && (clientLevel + |notifs| < topLevel ==> r == notifs)
            && (topLevel < clientLevel && notifs != [] ==> r == [notifs[|notifs| - 1]])
  {
  }

  /** The payloads with the tag, in their order. */
  lemma {:induction false} TaggedIff(tag: string, notifs: seq<Notification>, decoded: seq<set<string>>)
    returns (at: seq<nat>)
    requires |notifs| == |decoded|
    ensures Positions(at, |notifs|) && Tagged(tag, notifs, decoded) == Payloads(Select(notifs, at))
    ensures forall i :: 0 <= i < |notifs| ==> (i in at <==> tag in decoded[i])
  {
    if notifs == [] {
      at := [];
    } else {
      var rest := TaggedIff(tag, notifs[1..], decoded[1..]);
      at := SelectStep(notifs, rest, tag in decoded[0]);
      hide Positions, Select;
    }
  }

  /** A session gets the payloads of the items that the filter by level leaves, in their order; on the system
      channel only of those with its tag. */
  lemma {:induction false} PayloadsForIff(level: int, tag: string, x: BroadcastExchange) returns (at: seq<nat>)
    requires x.Initialized()
    ensures Positions(at, |x.notifications|)
    ensures PayloadsFor(level, tag, x) == Payloads(Select(x.notifications, at))
    ensures var first := |x.notifications| - |FilterByLevel(level, x.topLevel, x.notifications)|;
            forall i :: 0 <= i < |x.notifications| ==>
              (i in at <==> first <= i && (x.chanId == SYSTEM_CHANNEL ==> tag in x.decoded[i]))
  {
    FilterIsEnd(level, x.topLevel, x.notifications);
    var left := FilterByLevel(level, x.topLevel, x.notifications);
    var n, first := |x.notifications|, |x.notifications| - |left|;
    hide FilterByLevel;
    var among: seq<nat>;
    if x.chanId == SYSTEM_CHANNEL {
      among := TaggedIff(tag, left, x.decoded[first..]);
    } else {
      among := SelectAll(left);
    }
    SelectLater(x.notifications, first, among);
    at := Later(first, among);
    hide Later, Select, Positions, Tagged, Payloads;
    forall i | 0 <= i < n
      ensures i in at <==> first <= i && (x.chanId == SYSTEM_CHANNEL ==> tag in x.decoded[i])
    {
      LaterHas(first, among, i);
    }
  }

  lemma {:induction false} AckedIsNop(tag: string, x: BroadcastExchange)
    requires x.Initialized()
    ensures PayloadsFor(x.topLevel, tag, x) == []
  {
    NothingLeftIff(x.topLevel, x.topLevel, x.notifications);
    TaggedNone(tag);
  }

  method WithTag(tag: string, notifs: seq<Notification>, decoded: seq<set<string>>) returns (filtered: seq<string>)
    requires |notifs| == |decoded|
    ensures filtered == Tagged(tag, notifs, decoded)
  {
    hide Tagged;
    filtered := [];
    assert notifs[0..] == notifs && decoded[0..] == decoded;
    for i := 0 to |decoded|
      invariant filtered + Tagged(tag, notifs[i..], decoded[i..]) == Tagged(tag, notifs, decoded)
    {
      TaggedStep(tag, notifs, decoded, i);
      if tag in decoded[i] {
        filtered := filtered + [notifs[i].payload];
      }
    }
    TaggedNone(tag);
    assert filtered + [] == filtered;
  }

  /** On the system channel only the payloads with the tag of the device pass. */
  method ChannelFilter(tag: string, chanId: ChannelId, notifs: seq<Notification>, decoded: seq<set<string>>)
    returns (filtered: seq<string>)
    requires |notifs| <= |decoded|
    ensures filtered == if chanId == SYSTEM_CHANNEL then Tagged(tag, notifs, decoded[|decoded| - |notifs|..])
                        else Payloads(notifs)
  {
    if |notifs| != 0 && chanId == SYSTEM_CHANNEL {
      filtered := WithTag(tag, notifs, decoded[|decoded| - |notifs|..]);
      return;
    }
    if |notifs| == 0 {
      TaggedNone(tag);
    }
    filtered := [];
    for i := 0 to |notifs|
      invariant filtered == Payloads(notifs)[..i]
    {
      filtered := filtered + [notifs[i].payload];
    }
  }

  /** The part of a broker session that broadcasts use: the levels and the scratch message. */
  class BrokerSession {
    var levels: map<ChannelId, int>
    const tag: string
    const broadcastMsg: BroadcastMsg

    constructor (levels: map<ChannelId, int>, tag: string)
      ensures this.levels == levels && this.tag == tag && fresh(broadcastMsg)
      ensures forall c :: c !in levels ==> LevelOf(c) == 0
    {
      this.levels, this.tag := levels, tag;
      broadcastMsg := new BroadcastMsg(0, []);
    }

    function LevelOf(chanId: ChannelId): (r: int)
      reads this
    {
      if chanId in levels then levels[chanId] else 0
    }

    /** Fills the scratch message.  There is nothing to do when no payload is left for the device,
        unless the client is ahead of the channel and has to be resynchronized. */
    method Prepare(x: BroadcastExchange) returns (nop: bool)
      requires x.Initialized()
      modifies broadcastMsg
      ensures nop <==> PayloadsFor(LevelOf(x.chanId), tag, x) == [] && x.topLevel >= LevelOf(x.chanId)
      ensures !nop ==> broadcastMsg.Valid()
      ensures !nop ==> broadcastMsg.Unsent() == PayloadsFor(LevelOf(x.chanId), tag, x)
      ensures !nop ==> broadcastMsg.LevelBefore() + |broadcastMsg.Unsent()| == x.topLevel
      ensures x.topLevel < LevelOf(x.chanId) && x.chanId != SYSTEM_CHANNEL ==>
                !nop && broadcastMsg.Unsent() ==
                        if x.notifications == [] then [] else [x.notifications[|x.notifications| - 1].payload]
    {
      var clientLevel := LevelOf(x.chanId);
      var notifs := FilterByLevel(clientLevel, x.topLevel, x.notifications);
      var payloads := ChannelFilter(tag, x.chanId, notifs, x.decoded);
      if |payloads| == 0 && x.topLevel >= clientLevel {
        return true;
      }
      broadcastMsg.Reset();
      broadcastMsg.topLevel := x.topLevel;
      broadcastMsg.backing, broadcastMsg.off, broadcastMsg.len := payloads, 0, |payloads|;
      return false;
    }

    /** On every ack, also of a part that is not the last one, the session takes the full level: for the
        same snapshot there is then nothing to do any more, and other channels are as they were. */
    method Acked(x: BroadcastExchange)
      modifies this
      ensures levels == old(levels)[x.chanId := x.topLevel]
      ensures x.Initialized() ==> PayloadsFor(LevelOf(x.chanId), tag, x) == []
      ensures forall c :: c != x.chanId ==> LevelOf(c) == old(LevelOf(c))
    {
      if x.Initialized() {
        AckedIsNop(tag, x);
      }
      levels := levels[x.chanId := x.topLevel];
    }
  }
}
