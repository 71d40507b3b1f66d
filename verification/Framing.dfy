/** The wire format of protocol/protocol.go, a JSON body after its length in two bytes, and the
    lengths of the NOTIFICATIONS bodies that `Split` makes.

    Strings are taken to need no JSON escaping, and payloads to be compact JSON. */
module Framing {
  import opened Sequences
  import opened Messages

  const FRAME_LIMIT: nat := 0x1_0000

  /** A length as a big-endian 16-bit word; higher bits are lost. */
  function Length16(n: nat): (r: string)
    ensures |r| == 2 && r[0] as int < 256 && r[1] as int < 256
  {
    [(n / 256 % 256) as char, (n % 256) as char]
  }

  function Value16(bytes: string): (n: nat)
    requires |bytes| == 2
    ensures n < FRAME_LIMIT
  {
    bytes[0] as nat % 256 * 256 + bytes[1] as nat % 256
  }

  /** The first byte counts more: lengths are ordered as their words are, byte by byte. */
  lemma {:induction false} WordsAreOrdered(m: nat, n: nat)
    requires m < 65536 && n < 65536
    ensures m < n <==> var a, b := Length16(m), Length16(n); a[0] < b[0] || (a[0] == b[0] && a[1] < b[1])
  {
    assert m / 256 < 256 && n / 256 < 256;
  }

  lemma {:induction false} HigherBitsAreLost(n: nat)
    ensures Length16(n) == Length16(n % 65536)
  {
    var q, r := n / 65536, n % 65536;
    assert n == 256 * (256 * q) + r;
    assert n / 256 == 256 * q + r / 256 && n % 256 == r % 256;
  }

  function Frame(body: string): (r: string) {
    Length16(|body|) + body
  }

  /** The first body of a stream and what follows, or nothing when the stream ends too early. */
  function FirstFrame(stream: string): (r: Option<(string, string)>) {
    if |stream| < 2 || |stream| < 2 + Value16(stream[..2]) then None
    else Some((stream[2..2 + Value16(stream[..2])], stream[2 + Value16(stream[..2])..]))
  }

  class Protocol0 {
    var buffer: string
    var incoming: string   // still to be read from the connection
    var outgoing: string   // written to the connection so far

    constructor (incoming: string)
      ensures this.incoming == incoming && outgoing == ""
    {
      buffer, this.incoming, outgoing := seq(5000, _ => 0 as char), incoming, "";
    }

    /** The encoder puts a newline after the body, which is not sent. */
    method WriteMessage(body: string)
      modifies this
      ensures outgoing == old(outgoing) + Frame(body) && incoming == old(incoming)
    {
      buffer := "";
      buffer := buffer + [0 as char, 0 as char];
      buffer := buffer + (body + "\n");
      var msgLen := |buffer| - 3;
      var toWrite := buffer[0 := (msgLen / 256 % 256) as char][1 := (msgLen % 256) as char];
      assert toWrite[..msgLen + 2] == Frame(body);
      outgoing := outgoing + toWrite[..msgLen + 2];
    }

    method ReadMessage() returns (body: Option<string>)
      modifies this
      ensures outgoing == old(outgoing)
      ensures body.Some? <==> FirstFrame(old(incoming)).Some?
      ensures body.Some? ==> FirstFrame(old(incoming)) == Some((body.value, incoming))
    {
      buffer := "";
      if |incoming| < 2 {
        incoming := "";
        return None;
      }
      buffer, incoming := incoming[..2], incoming[2..];
      var length := Value16(buffer);
      buffer := "";
      ghost var stream := old(incoming);
      assert |incoming| >= length ==>
          incoming[..length] == stream[2..2 + length] && incoming[length..] == stream[2 + length..];
      if |incoming| < length {
        incoming := "";
        return None;
      }
      buffer, incoming := incoming[..length], incoming[length..];
      return Some(buffer);
    }
  }

  /** One frame comes back as it was written if and only if its length fits two bytes. */
  lemma {:induction false} FrameRoundTripIff(body: string, rest: string)
    ensures FirstFrame(Frame(body) + rest) == Some((body, rest)) <==> |body| < FRAME_LIMIT
  {
    var stream := Frame(body) + rest;
    assert stream[..2] == Length16(|body|);
    if |body| < FRAME_LIMIT {
      assert stream[2..2 + |body|] == body && stream[2 + |body|..] == rest;
    }
  }

  function Frames(bodies: seq<string>): (r: string) {
    if bodies == [] then "" else Frame(bodies[0]) + Frames(bodies[1..])
  }

  /** The bodies of the first `k` frames of a stream. */
  function ReadFrames(stream: string, k: nat): (r: Option<(seq<string>, string)>) {
    if k == 0 then Some(([], stream))
    else
      match FirstFrame(stream)
      case None => None
      case Some((body, rest)) =>
        match ReadFrames(rest, k - 1)
        case None => None
        case Some((bodies, after)) => Some(([body] + bodies, after))
  }

  lemma {:induction false} ReadFramesStep(stream: string, bodies: seq<string>, rest: string)
    requires bodies != []
    ensures ReadFrames(stream, |bodies|) == Some((bodies, rest)) <==>
            && FirstFrame(stream).Some? && FirstFrame(stream).value.0 == bodies[0]
            && ReadFrames(FirstFrame(stream).value.1, |bodies| - 1) == Some((bodies[1..], rest))
  {
    hide FirstFrame;
    assert bodies == [bodies[0]] + bodies[1..];
    if FirstFrame(stream).Some? && ReadFrames(FirstFrame(stream).value.1, |bodies| - 1).Some? {
      var (body, after) := FirstFrame(stream).value;
      var (later, end) := ReadFrames(after, |bodies| - 1).value;
      assert ([body] + later)[0] == body && ([body] + later)[1..] == later;
    }
  }

  /** A stream of frames is read back frame for frame if and only if every length fits. */
  lemma {:induction false} StreamRoundTripIff(bodies: seq<string>, rest: string)
    ensures ReadFrames(Frames(bodies) + rest, |bodies|) == Some((bodies, rest)) <==>
            forall i :: 0 <= i < |bodies| ==> |bodies[i]| < FRAME_LIMIT
  {
    if bodies == [] {
      assert Frames(bodies) + rest == rest;
    } else {
      var stream, more := Frames(bodies) + rest, Frames(bodies[1..]) + rest;
      assert stream == Frame(bodies[0]) + more;
      FrameRoundTripIff(bodies[0], more);
      ReadFramesStep(stream, bodies, rest);
      StreamRoundTripIff(bodies[1..], rest);
      hide FirstFrame, Frame, ReadFrames;
    }
  }

  // ----- NOTIFICATIONS bodies ------------------------------------------------------------------

  const OPENING := "{\"T\":\"notifications\",\"Notifications\":["

  function EncodeItem(n: Notification): (r: string) {
    "{\"A\":\"" + n.appId + "\",\"M\":\"" + n.msgId + "\",\"P\":" + n.payload + "}"
  }

  function EncodeItems(ns: seq<Notification>): (r: string) {
    if ns == [] then ""
    else if |ns| == 1 then EncodeItem(ns[0])
    else EncodeItem(ns[0]) + "," + EncodeItems(ns[1..])
  }

  function Encode(ns: seq<Notification>): (r: string) {
    OPENING + EncodeItems(ns) + "]}"
  }

  /** What `Split` accounts for an item is the length of its JSON text; it leaves out the commas
      between the items and the envelope. */
  lemma {:induction false} EncodedLength(ns: seq<Notification>)
    requires ns != []
    ensures |EncodeItems(ns)| == Total(ns, NotificationSize) + |ns| - 1
    ensures |Encode(ns)| == Total(ns, NotificationSize) + |ns| + 39
  {
    assert |EncodeItem(ns[0])| == NotificationSize(ns[0]);
    if |ns| == 1 {
      assert ns[1..] == [];
    } else {
      EncodedLength(ns[1..]);
    }
    assert |OPENING| == 38;
  }

  lemma {:induction false} TotalAtLeast<T>(items: seq<T>, size: T -> nat, least: nat)
    requires forall i :: 0 <= i < |items| ==> size(items[i]) >= least
    ensures Total(items, size) >= least * |items|
  {
    if items != [] {
      TotalAtLeast(items[1..], size, least);
      assert least * |items| == least + least * (|items| - 1);
    }
  }

  /** A part within the limit of `Split` whose items have size 32 at least fits the length prefix. */
  lemma {:induction false} PartFits(part: seq<Notification>)
    requires part != [] && Total(part, NotificationSize) <= MAX_PAYLOAD_SIZE
    requires forall i :: 0 <= i < |part| ==> NotificationSize(part[i]) >= 32
    ensures |Encode(part)| < FRAME_LIMIT
  {
    TotalAtLeast(part, NotificationSize, 32);
    EncodedLength(part);
  }

  lemma {:induction false} RepeatTotal<T>(item: T, size: T -> nat, k: nat)
    ensures Total(seq(k, _ => item), size) == k * size(item)
  {
    if k > 0 {
      assert seq(k, _ => item)[1..] == seq(k - 1, _ => item);
      RepeatTotal(item, size, k - 1);
      assert k * size(item) == size(item) + (k - 1) * size(item);
    }
  }

  /** 32 is the least such size: with items of size 31 a part can be too long. */
  lemma {:induction false} SmallItemsOverflow()
    ensures exists part :: part != [] && Total(part, NotificationSize) <= MAX_PAYLOAD_SIZE
                           && (forall i :: 0 <= i < |part| ==> NotificationSize(part[i]) == 31)
                           && |Encode(part)| >= FRAME_LIMIT
  {
    var n := Notification("app", "message", "1");
    var part := seq(2048, _ => n);
    assert NotificationSize(n) == 31;
    RepeatTotal(n, NotificationSize, 2048);
    EncodedLength(part);
    assert part != [];
  }

  // ----- BROADCAST bodies ----------------------------------------------------------------------

  function EncodePayloads(payloads: seq<string>): (r: string) {
    if payloads == [] then ""
    else if |payloads| == 1 then payloads[0]
    else payloads[0] + "," + EncodePayloads(payloads[1..])
  }

  /** `chan` is the channel in hexadecimal form and `top` the level in decimal. */
  function EncodeBroadcast(chan: string, top: string, payloads: seq<string>): (r: string) {
    "{\"T\":\"broadcast\",\"ChanId\":\"" + chan + "\",\"TopLevel\":" + top
    + ",\"Payloads\":[" + EncodePayloads(payloads) + "]}"
  }

  lemma {:induction false} EncodedBroadcastLength(chan: string, top: string, payloads: seq<string>)
    requires payloads != []
    ensures |EncodePayloads(payloads)| == Total(payloads, PayloadSize) + |payloads| - 1
    ensures |EncodeBroadcast(chan, top, payloads)| ==
            Total(payloads, PayloadSize) + |payloads| + |chan| + |top| + 54
  {
    if |payloads| == 1 {
      assert payloads[1..] == [];
    } else {
      EncodedBroadcastLength(chan, top, payloads[1..]);
    }
  }

  /** A part of a broadcast within the limit of `Split`, for any channel and level, fits the length prefix
      when its payloads have 33 bytes at least. */
  lemma {:induction false} BroadcastPartFits(chan: string, top: string, part: seq<string>)
    requires |chan| <= 32 && |top| <= 20
    requires part != [] && Total(part, PayloadSize) <= MAX_PAYLOAD_SIZE
    requires forall i :: 0 <= i < |part| ==> |part[i]| >= 33
    ensures |EncodeBroadcast(chan, top, part)| < FRAME_LIMIT
  {
    TotalAtLeast(part, PayloadSize, 33);
    EncodedBroadcastLength(chan, top, part);
  }

  /** 33 is the least such size. */
  lemma {:induction false} SmallPayloadsOverflow(chan: string, top: string)
    requires |chan| == 32
    ensures exists part :: part != [] && Total(part, PayloadSize) <= MAX_PAYLOAD_SIZE
                           && (forall i :: 0 <= i < |part| ==> |part[i]| == 32)
                           && |EncodeBroadcast(chan, top, part)| >= FRAME_LIMIT
  {
    var payload := seq(32, _ => '1');
    var part := seq(1984, _ => payload);
    RepeatTotal(payload, PayloadSize, 1984);
    EncodedBroadcastLength(chan, top, part);
    assert part != [];
  }

  // ----- Streams of parts ----------------------------------------------------------------------

  lemma {:induction false} PartsOfList(ns: seq<Notification>)
    requires AllFit(ns, NotificationSize)
    ensures forall p :: 0 <= p < |Parts(ns, NotificationSize)| ==>
              forall i :: 0 <= i < |Parts(ns, NotificationSize)[p]| ==> Parts(ns, NotificationSize)[p][i] in ns
    decreases |ns|
  {
    var parts := Parts(ns, NotificationSize);
    PartsStep(ns, NotificationSize);
    var k := FitCount(ns, NotificationSize);
    if k < |ns| {
      PartsOfList(ns[k..]);
    }
  }

  function EncodeAll(parts: seq<seq<Notification>>): (r: seq<string>)
    ensures |r| == |parts| && forall i :: 0 <= i < |r| ==> r[i] == Encode(parts[i])
  {
    seq(|parts|, i requires 0 <= i < |parts| => Encode(parts[i]))
  }

  /** The parts of any list of notifications of size 32 at least, each within the limit, are read
      back frame for frame. */
  lemma {:induction false} PartsAreReadBack(ns: seq<Notification>, rest: string)
    requires ns != [] && AllFit(ns, NotificationSize)
    requires forall i :: 0 <= i < |ns| ==> NotificationSize(ns[i]) >= 32
    ensures var bodies := EncodeAll(Parts(ns, NotificationSize));
            ReadFrames(Frames(bodies) + rest, |bodies|) == Some((bodies, rest))
  {
    var parts := Parts(ns, NotificationSize);
    PartsPartition(ns, NotificationSize);
    PartsNonEmpty(ns, NotificationSize);
    PartsOfList(ns);
    var bodies := EncodeAll(parts);
    hide Parts, Encode;
    forall p | 0 <= p < |bodies|
      ensures |bodies[p]| < FRAME_LIMIT
    {
      PartFits(parts[p]);
    }
    StreamRoundTripIff(bodies, rest);
  }
}
