/** Channel ids of server/store/store.go, with strings as strings of bytes. */
module ChannelIds {
  import opened Sequences
  import opened Store

  const SYSTEM_CHANNEL: ChannelId := "0"

  predicate IsUnicastChannel(id: ChannelId)
    requires id != ""
  {
    id[0] == 'U'
  }

  predicate IsBroadcastChannel(id: ChannelId)
    requires id != ""
  {
    id[0] == 'B' || id[0] == '0'
  }

  function UnicastInternalChannelId(userId: string, deviceId: string): (id: ChannelId)
    ensures id != "" && IsUnicastChannel(id)
  {
    "U" + userId + ":" + deviceId
  }

  /** The two parts around the first colon, if there is one. */
  function SplitAtColon(s: string): (r: Option<(string, string)>) {
    if s == "" then None
    else if s[0] == ':' then Some(("", s[1..]))
    else
      match SplitAtColon(s[1..])
      case None => None
      case Some((before, after)) => Some(([s[0]] + before, after))
  }

  /** The code panics where the result is `None`. */
  function UnicastUserAndDevice(id: ChannelId): (r: Option<(string, string)>)
    requires id != ""
  {
    if IsUnicastChannel(id) then SplitAtColon(id[1..]) else None
  }

  lemma {:induction false} SplitIsFirstColon(s: string, before: string, after: string)
    ensures SplitAtColon(s) == Some((before, after)) <==> s == before + ":" + after && ':' !in before
  {
    if s == "" {
    } else if s[0] == ':' {
      if s == before + ":" + after && before != "" {
        assert s[0] == before[0];
      }
    } else if before == "" {
      assert (before + ":" + after)[0] == ':';
    } else {
      SplitIsFirstColon(s[1..], before[1..], after);
      assert s == [s[0]] + s[1..] && before == [before[0]] + before[1..];
      assert (before + ":" + after)[1..] == before[1..] + ":" + after;
      assert s == before + ":" + after <==> s[0] == before[0] && s[1..] == before[1..] + ":" + after;
    }
  }

  /** The user and the device come back if and only if the user id has no colon. */
  lemma {:induction false} UserAndDeviceIff(userId: string, deviceId: string)
    ensures UnicastUserAndDevice(UnicastInternalChannelId(userId, deviceId)) == Some((userId, deviceId)) <==>
            ':' !in userId
  {
    var id := UnicastInternalChannelId(userId, deviceId);
    assert id[1..] == userId + ":" + deviceId;
    SplitIsFirstColon(id[1..], userId, deviceId);
  }

  /** Some user and device always come back, and they have the same channel id. */
  lemma {:induction false} UserAndDeviceOf(userId: string, deviceId: string)
    ensures var id := UnicastInternalChannelId(userId, deviceId);
            && UnicastUserAndDevice(id).Some?
            && UnicastInternalChannelId(UnicastUserAndDevice(id).value.0, UnicastUserAndDevice(id).value.1) == id
  {
    var s := userId + ":" + deviceId;
    var id := UnicastInternalChannelId(userId, deviceId);
    assert id[1..] == s;
    HasColon(userId, deviceId);
    var (before, after) := SplitAtColon(s).value;
    SplitIsFirstColon(s, before, after);
    assert id == "U" + s;
    assert UnicastInternalChannelId(before, after) == "U" + (before + ":" + after);
  }

  lemma {:induction false} HasColon(userId: string, deviceId: string)
    ensures SplitAtColon(userId + ":" + deviceId).Some?
  {
    var s := userId + ":" + deviceId;
    if userId != "" {
      HasColon(userId[1..], deviceId);
      assert s[1..] == userId[1..] + ":" + deviceId;
    }
  }

  /** Channels of users without colons are shared by nobody else. */
  lemma {:induction false} UnicastIdsAreInjective(userId: string, deviceId: string, userId': string, deviceId': string)
    requires ':' !in userId && ':' !in userId'
    requires UnicastInternalChannelId(userId, deviceId) == UnicastInternalChannelId(userId', deviceId')
    ensures userId == userId' && deviceId == deviceId'
  {
    UserAndDeviceIff(userId, deviceId);
    UserAndDeviceIff(userId', deviceId');
  }

  /** With a colon in a user id two users can share a channel. */
  lemma {:induction false} ColonsCollide()
    ensures UnicastInternalChannelId("a:b", "c") == UnicastInternalChannelId("a", "b:c")
  {
    assert UnicastInternalChannelId("a:b", "c") == "Ua:b:c";
    assert UnicastInternalChannelId("a", "b:c") == "Ua:b:c";
  }

  /** The broker looks up a device by the channel it has of its own; it finds the device if and only
      if the device id has no colon. */
  lemma {:induction false} OwnChannelIff(deviceId: string)
    ensures UnicastUserAndDevice(UnicastInternalChannelId(deviceId, deviceId)).Some?
    ensures UnicastUserAndDevice(UnicastInternalChannelId(deviceId, deviceId)).value.1 == deviceId <==>
            ':' !in deviceId
  {
    var id := UnicastInternalChannelId(deviceId, deviceId);
    UserAndDeviceOf(deviceId, deviceId);
    UserAndDeviceIff(deviceId, deviceId);
    var (before, after) := UnicastUserAndDevice(id).value;
    if after == deviceId {
      assert id[1..] == deviceId + ":" + deviceId;
      SplitIsFirstColon(id[1..], before, after);
      assert |before| == |deviceId|;
      assert before == id[1..][..|deviceId|] == deviceId;
    }
  }

  // ----- The channel of a request --------------------------------------------------------------

  /** The application id of a decoded token: what is before its first colon, if it has one. */
  function AppIdOf(token: string): (appId: string) {
    match SplitAtColon(token)
    case None => token
    case Some((before, _)) => before
  }

  /** The channel that a request for a decoded token, or without one for a user and a device, goes to. */
  function ChannelOfRequest(token: string, userId: string, deviceId: string): (id: Option<ChannelId>) {
    var appId := AppIdOf(token);
    if token != "" && appId != "" then
      if appId + "::" <= token then
        var tokenDevice := token[|appId| + 2..];
        Some(UnicastInternalChannelId(tokenDevice, tokenDevice))
      else None
    else if userId != "" && deviceId != "" then Some(UnicastInternalChannelId(userId, deviceId))
    else None
  }

  /** A request with a token of an application goes to the own channel of the device, whatever user and
      device it gives; one without a token goes to the channel of these two. */
  lemma {:induction false} ChannelOfToken(appId: string, tokenDevice: string, userId: string, deviceId: string)
    requires appId != "" && ':' !in appId && userId != "" && deviceId != ""
    ensures ChannelOfRequest(appId + "::" + tokenDevice, userId, deviceId) ==
            Some(UnicastInternalChannelId(tokenDevice, tokenDevice))
    ensures ChannelOfRequest("", userId, deviceId) == Some(UnicastInternalChannelId(userId, deviceId))
  {
    var token := appId + "::" + tokenDevice;
    assert token == appId + ":" + (":" + tokenDevice);
    SplitIsFirstColon(token, appId, ":" + tokenDevice);
    assert token[|appId| + 2..] == tokenDevice && token[..|appId| + 2] == appId + "::";
  }

  /** A request is refused if and only if its token has an application id that is not followed by two colons,
      or it has no token with an application id and lacks a user or a device. */
  lemma {:induction false} ChannelOfRequestIff(token: string, userId: string, deviceId: string, id: ChannelId)
    ensures token != "" && token[0] != ':' ==>
              (ChannelOfRequest(token, userId, deviceId) == Some(id) <==>
               exists appId, tokenDevice :: ':' !in appId && token == appId + "::" + tokenDevice
                                            && id == "U" + tokenDevice + ":" + tokenDevice)
    ensures token == "" || token[0] == ':' ==>
              (ChannelOfRequest(token, userId, deviceId) == Some(id) <==>
               userId != "" && deviceId != "" && id == "U" + userId + ":" + deviceId)
  {
    if token != "" && token[0] != ':' {
      var appId := AppIdOf(token);
      AppIdHasNoColon(token);
      if appId + "::" <= token {
        var tokenDevice := token[|appId| + 2..];
        assert token == appId + "::" + tokenDevice;
      }
      forall a, d | ':' !in a && token == a + "::" + d
        ensures a == appId && appId + "::" <= token && token[|appId| + 2..] == d
      {
        assert token == a + ":" + (":" + d);
        SplitIsFirstColon(token, a, ":" + d);
      }
    }
  }

  lemma {:induction false} AppIdHasNoColon(token: string)
    ensures ':' !in AppIdOf(token)
    ensures AppIdOf(token) == "" <==> token == "" || token[0] == ':'
  {
    match SplitAtColon(token)
    case None => NoColon(token);
    case Some((before, after)) =>
      SplitIsFirstColon(token, before, after);
      assert before != "" ==> token[0] == before[0];
  }

  lemma {:induction false} NoColon(s: string)
    ensures SplitAtColon(s).None? <==> ':' !in s
  {
    if s != "" {
      NoColon(s[1..]);
      assert s == [s[0]] + s[1..];
    }
  }

  /** Exactly the ids made of a user and a device are parsed as such. */
  lemma {:induction false} UnicastIff(id: ChannelId)
    requires id != ""
    ensures UnicastUserAndDevice(id).Some? <==> exists userId, deviceId :: id == "U" + userId + ":" + deviceId
  {
    NoColon(id[1..]);
    if UnicastUserAndDevice(id).Some? {
      var (userId, deviceId) := UnicastUserAndDevice(id).value;
      SplitIsFirstColon(id[1..], userId, deviceId);
      assert id == "U" + userId + ":" + deviceId;
    }
    if userId, deviceId :| id == "U" + userId + ":" + deviceId {
      HasColonIn(userId, deviceId);
      assert id[1..] == userId + ":" + deviceId;
    }
  }

  lemma {:induction false} HasColonIn(userId: string, deviceId: string)
    ensures ':' in userId + ":" + deviceId
  {
    assert (userId + ":" + deviceId)[|userId|] == ':';
  }

  // ----- Broadcast channels --------------------------------------------------------------------

  predicate IsHexDigit(c: char) {
    '0' <= c <= '9' || 'a' <= c <= 'f' || 'A' <= c <= 'F'
  }

  predicate IsHexId(s: string) {
    |s| == 32 && forall i :: 0 <= i < |s| ==> IsHexDigit(s[i])
  }

  predicate AllZero(s: string) {
    forall i :: 0 <= i < |s| ==> s[i] == '0'
  }

  function HexToInternalChannelId(hexRepr: string): (r: Option<ChannelId>) {
    if hexRepr == "0" then Some(SYSTEM_CHANNEL)
    else if !IsHexId(hexRepr) then None
    else if AllZero(hexRepr) then Some(SYSTEM_CHANNEL)
    else Some("B" + hexRepr)
  }

  /** The code panics where the result is `None`. */
  function InternalChannelIdToHex(id: ChannelId): (r: Option<string>)
    requires id != ""
  {
    if id == SYSTEM_CHANNEL then Some("0")
    else if !IsBroadcastChannel(id) then None
    else Some(id[1..])
  }

  /** A representation is that of the system channel if and only if it is "0" or 32 zeros, and otherwise that of
      a channel of its own if and only if it has 32 hexadecimal digits. */
  lemma {:induction false} HexIdIff(hexRepr: string)
    ensures HexToInternalChannelId(hexRepr) == Some("0") <==> hexRepr == "0" || hexRepr == seq(32, _ => '0')
    ensures HexToInternalChannelId(hexRepr) == Some("B" + hexRepr) <==>
            && |hexRepr| == 32 && hexRepr != seq(32, _ => '0')
            && forall i :: 0 <= i < 32 ==> hexRepr[i] in "0123456789abcdefABCDEF"
    ensures HexToInternalChannelId(hexRepr).Some? ==>
              HexToInternalChannelId(hexRepr).value == "0" || HexToInternalChannelId(hexRepr).value == "B" + hexRepr
    ensures forall id :: id != "" ==> (InternalChannelIdToHex(id).Some? <==> id[0] == 'B' || id[0] == '0')
  {
    forall i | 0 <= i < |hexRepr|
      ensures IsHexDigit(hexRepr[i]) <==> hexRepr[i] in "0123456789abcdefABCDEF"
    {
      HexDigitIff(hexRepr[i]);
    }
    hide IsHexDigit;
    assert ("B" + hexRepr)[0] == 'B';
  }

  lemma {:induction false} HexDigitIff(c: char)
    ensures IsHexDigit(c) <==> c in "0123456789abcdefABCDEF"
  {
    assert c as int as char == c;
  }

  /** Reading a representation and writing it again gives it back, except that the system channel is
      always written "0"; the ids read are those of broadcast channels. */
  lemma {:induction false} HexRoundTrip(hexRepr: string)
    ensures HexToInternalChannelId(hexRepr).Some? <==> hexRepr == "0" || IsHexId(hexRepr)
    ensures HexToInternalChannelId(hexRepr).Some? ==>
              var id := HexToInternalChannelId(hexRepr).value;
              && id != "" && IsBroadcastChannel(id)
              && InternalChannelIdToHex(id) == Some(if AllZero(hexRepr) then "0" else hexRepr)
  {
    if HexToInternalChannelId(hexRepr).Some? && hexRepr != "0" && !AllZero(hexRepr) {
      assert ("B" + hexRepr)[1..] == hexRepr;
    }
  }
}
