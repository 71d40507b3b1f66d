/** Cookies on the way out, http13client/request.go, and on the way in, http13client/cookie.go.

    A header is a map from names to the values of its lines; bytes outside of ASCII are not white space. */
module Cookies {
  import opened Sequences

  datatype Cookie = Cookie(name: string, value: string)

  type Header = map<string, seq<string>>

  const COOKIE := "Cookie"

  // ----- Bytes ---------------------------------------------------------------------------------

  predicate ValidValueByte(b: char) {
    0x20 as char <= b < 0x7f as char && b != '\"' && b != ';' && b != '\\'
  }

  /** The separators of section 2.2 of RFC 2616 that are not controls. */
  predicate IsSeparator(b: char) {
    b in "()<>@,;:\\\"/[]?={} \t"
  }

  predicate IsToken(b: char) {
    0x20 as char < b < 0x7f as char && !IsSeparator(b)
  }

  predicate IsName(s: string) {
    forall i :: 0 <= i < |s| ==> IsToken(s[i])
  }

  predicate IsWhite(b: char) {
    b in " \t\n\r" || b == 0xb as char || b == 0xc as char
  }

  /** The bytes of the value that a cookie may carry, in order. */
  function ValidBytes(v: string): (r: string)
    ensures forall i :: 0 <= i < |r| ==> ValidValueByte(r[i])
  {
    if v == "" then ""
    else if ValidValueByte(v[|v| - 1]) then ValidBytes(v[..|v| - 1]) + [v[|v| - 1]]
    else ValidBytes(v[..|v| - 1])
  }

  lemma {:induction false} ValidBytesOfValid(v: string)
    requires forall i :: 0 <= i < |v| ==> ValidValueByte(v[i])
    ensures ValidBytes(v) == v
  {
    if v != "" {
      ValidBytesOfValid(v[..|v| - 1]);
    }
  }

  /** Tokens are made of letters, digits and these marks, as in section 2.2 of RFC 2616. */
  lemma {:induction false} TokenIff(b: char)
    ensures IsToken(b) <==>
            'A' <= b <= 'Z' || 'a' <= b <= 'z' || '0' <= b <= '9' || b in "!#$%&'*+-.^_`|~"
  {
    assert b as int as char == b;
  }

  lemma {:induction false} WhiteIff(b: char)
    ensures IsWhite(b) <==> b == ' ' || 9 <= b as int <= 13
  {
    assert b as int as char == b;
  }

  /** The bytes kept of a value are those from the space to the tilde other than the quote, the semicolon and
      the backslash, in their order. */
  lemma {:induction false} ValidBytesIff(v: string) returns (at: seq<nat>)
    ensures Positions(at, |v|) && ValidBytes(v) == Select(v, at)
    ensures forall i :: 0 <= i < |v| ==> (i in at <==> ' ' <= v[i] <= '~' && v[i] !in "\";\\")
  {
    if v == "" {
      at := [];
    } else {
      var n := |v| - 1;
      var init := ValidBytesIff(v[..n]);
      ValidByteIff(v[n]);
      hide ValidValueByte;
      at := SelectLast(v, init, ValidValueByte(v[n]));
      hide Positions, Select;
    }
  }

  lemma {:induction false} ValidByteIff(b: char)
    ensures ValidValueByte(b) <==> ' ' <= b <= '~' && b !in "\";\\"
  {
    assert b as int as char == b;
  }

  // ----- Writing -------------------------------------------------------------------------------

  /** Line ends become dashes. */
  function SanitizedName(n: string): (r: string)
    ensures |r| == |n|
    ensures forall i :: 0 <= i < |n| ==> r[i] == if n[i] == '\n' || n[i] == '\r' then '-' else n[i]
  {
    seq(|n|, i requires 0 <= i < |n| => if n[i] == '\n' || n[i] == '\r' then '-' else n[i])
  }

  predicate NeedsQuotes(v: string) {
    v != "" && (v[0] == ' ' || v[0] == ',' || v[|v| - 1] == ' ' || v[|v| - 1] == ',')
  }

  function Quoted(v: string): (r: string) {
    if NeedsQuotes(v) then "\"" + v + "\"" else v
  }

  method SanitizeOrWarn(v: string) returns (r: string)
    ensures r == ValidBytes(v)
  {
    var ok := true;
    for i := 0 to |v|
      invariant ok && forall k :: 0 <= k < i ==> ValidValueByte(v[k])
    {
      if !ValidValueByte(v[i]) {
        ok := false;
        break;
      }
    }
    if ok {
      ValidBytesOfValid(v);
      return v;
    }
    r := "";
    for i := 0 to |v|
      invariant r == ValidBytes(v[..i])
    {
      assert v[..i + 1][..i] == v[..i];
      if ValidValueByte(v[i]) {
        r := r + [v[i]];
      }
    }
    assert v[..|v|] == v;
  }

  method SanitizeCookieValue(value: string) returns (v: string)
    ensures v == Quoted(ValidBytes(value))
    ensures var w := ValidBytes(value);
            v == if w != "" && (w[0] in " ," || w[|w| - 1] in " ,") then "\"" + w + "\"" else w
  {
    v := SanitizeOrWarn(value);
    if |v| == 0 {
      return;
    }
    if v[0] == ' ' || v[0] == ',' || v[|v| - 1] == ' ' || v[|v| - 1] == ',' {
      return "\"" + v + "\"";
    }
  }

  function Pair(c: Cookie): (r: string) {
    SanitizedName(c.name) + "=" + Quoted(ValidBytes(c.value))
  }

  function Get(header: Header, key: string): (r: string) {
    if key in header && header[key] != [] then header[key][0] else ""
  }

  class Request {
    var header: Header

    constructor ()
      ensures header == map[]
    {
      header := map[];
    }

    /** All cookies go into the same line. */
    method AddCookie(c: Cookie)
      modifies this
      ensures header == old(header)[COOKIE := [Joined(Get(old(header), COOKIE), c)]]
    {
      var value := SanitizeCookieValue(c.value);
      var s := SanitizedName(c.name) + "=" + value;
      var before := Get(header, COOKIE);
      if before != "" {
        header := header[COOKIE := [before + "; " + s]];
      } else {
        header := header[COOKIE := [s]];
      }
    }
  }

  function Joined(before: string, c: Cookie): (r: string) {
    if before != "" then before + "; " + Pair(c) else Pair(c)
  }

  /** The cookie line after these cookies were added to a request. */
  function CookieLine(cookies: seq<Cookie>): (r: string) {
    if cookies == [] then "" else Joined(CookieLine(cookies[..|cookies| - 1]), cookies[|cookies| - 1])
  }

  method AddCookies(r: Request, cookies: seq<Cookie>)
    requires COOKIE !in r.header
    modifies r
    ensures Get(r.header, COOKIE) == CookieLine(cookies)
    ensures COOKIE in r.header <==> cookies != []
    ensures COOKIE in r.header ==> |r.header[COOKIE]| == 1
  {
    assert cookies[..0] == [];
    for i := 0 to |cookies|
      invariant Get(r.header, COOKIE) == CookieLine(cookies[..i])
      invariant COOKIE in r.header <==> i > 0
      invariant COOKIE in r.header ==> |r.header[COOKIE]| == 1
    {
      assert cookies[..i + 1][..i] == cookies[..i];
      r.AddCookie(cookies[i]);
    }
    assert cookies[..|cookies|] == cookies;
  }

  // ----- Reading -------------------------------------------------------------------------------

  function TrimLeft(s: string): (r: string) {
    if s != "" && IsWhite(s[0]) then TrimLeft(s[1..]) else s
  }

  function TrimRight(s: string): (r: string) {
    if s != "" && IsWhite(s[|s| - 1]) then TrimRight(s[..|s| - 1]) else s
  }

  function TrimSpace(s: string): (r: string) {
    TrimRight(TrimLeft(s))
  }

  function FirstIndex(s: string, b: char): (r: Option<nat>)
    ensures r.Some? ==> r.value < |s| && s[r.value] == b && forall i :: 0 <= i < r.value ==> s[i] != b
    ensures r.None? ==> b !in s
  {
    if s == "" then None
    else if s[0] == b then Some(0)
    else match FirstIndex(s[1..], b) case None => None case Some(i) => Some(i + 1)
  }

  function LastIndex(s: string, b: char): (r: Option<nat>)
    ensures r.Some? ==> r.value < |s| && s[r.value] == b && forall i :: r.value < i < |s| ==> s[i] != b
    ensures r.None? ==> b !in s
  {
    if s == "" then None
    else if s[|s| - 1] == b then Some(|s| - 1)
    else LastIndex(s[..|s| - 1], b)
  }

  /** The pieces between semicolons, at least one. */
  function Split(s: string): (r: seq<string>)
    ensures r != []
    decreases |s|
  {
    match LastIndex(s, ';')
    case None => [s]
    case Some(i) => Split(s[..i]) + [s[i + 1..]]
  }

  /** Strips quotes; the rest has to be valid. */
  function ParseCookieValue(raw: string): (r: Option<string>)
    ensures r.Some? ==> forall i :: 0 <= i < |r.value| ==> ValidValueByte(r.value[i])
  {
    var v := if |raw| > 1 && raw[0] == '\"' && raw[|raw| - 1] == '\"' then raw[1..|raw| - 1] else raw;
    if forall i :: 0 <= i < |v| ==> ValidValueByte(v[i]) then Some(v) else None
  }

  /** The cookie of one piece, if it is one and of the wanted name. */
  function ReadPart(part: string, filter: string): (r: Option<Cookie>) {
    var p := TrimSpace(part);
    if p == "" then None
    else
      var j := FirstIndex(p, '=');
      var name := if j.Some? then p[..j.value] else p;
      var value := if j.Some? then p[j.value + 1..] else "";
      if !IsName(name) || (filter != "" && filter != name) then None
      else
        match ParseCookieValue(value)
        case None => None
        case Some(v) => Some(Cookie(name, v))
  }

  function ReadParts(parts: seq<string>, filter: string): (r: seq<Cookie>) {
    if parts == [] then []
    else
      ReadParts(parts[..|parts| - 1], filter) +
      match ReadPart(parts[|parts| - 1], filter) case None => [] case Some(c) => [c]
  }

  function ReadLine(line: string, filter: string): (r: seq<Cookie>) {
    ReadParts(Split(TrimSpace(line)), filter)
  }

  function ReadLines(lines: seq<string>, filter: string): (r: seq<Cookie>) {
    if lines == [] then [] else ReadLines(lines[..|lines| - 1], filter) + ReadLine(lines[|lines| - 1], filter)
  }

  /** Neither end is white space. */
  ghost predicate Tight(s: string) {
    s != "" && !IsWhite(s[0]) && !IsWhite(s[|s| - 1])
  }

  /** White space around a text is trimmed, and nothing else. */
  lemma {:induction false} TrimsAround(before: string, s: string, after: string)
    requires forall i :: 0 <= i < |before| ==> IsWhite(before[i])
    requires forall i :: 0 <= i < |after| ==> IsWhite(after[i])
    requires s == "" || (!IsWhite(s[0]) && !IsWhite(s[|s| - 1]))
    ensures TrimSpace(before + s + after) == s
  {
    if s == "" {
      TrimsLeft(before + after, "");
      assert before + s + after == (before + after) + "";
      assert TrimRight("") == "";
    } else {
      TrimsLeft(before, s + after);
      assert before + s + after == before + (s + after);
      TrimsRight(s, after);
    }
  }

  lemma {:induction false} TrimsLeft(white: string, s: string)
    requires forall i :: 0 <= i < |white| ==> IsWhite(white[i])
    requires s == "" || !IsWhite(s[0])
    ensures TrimLeft(white + s) == s
  {
    if white == "" {
      assert white + s == s;
    } else {
      assert (white + s)[1..] == white[1..] + s;
      TrimsLeft(white[1..], s);
    }
  }

  lemma {:induction false} TrimsRight(s: string, white: string)
    requires forall i :: 0 <= i < |white| ==> IsWhite(white[i])
    requires s == "" || !IsWhite(s[|s| - 1])
    ensures TrimRight(s + white) == s
  {
    if white == "" {
      assert s + white == s;
    } else {
      assert (s + white)[..|s + white| - 1] == s + white[..|white| - 1];
      TrimsRight(s, white[..|white| - 1]);
    }
  }

  /** The pieces with semicolons between them. */
  function WithSemicolons(parts: seq<string>): (r: string)
    requires parts != []
  {
    if |parts| == 1 then parts[0] else WithSemicolons(parts[..|parts| - 1]) + ";" + parts[|parts| - 1]
  }

  /** No piece has a semicolon, and put together with semicolons between them they are the text. */
  lemma {:induction false} SplitIsInverse(s: string)
    ensures WithSemicolons(Split(s)) == s
    ensures forall k :: 0 <= k < |Split(s)| ==> ';' !in Split(s)[k]
    decreases |s|
  {
    match LastIndex(s, ';')
    case None =>
    case Some(i) =>
      SplitIsInverse(s[..i]);
      var parts := Split(s);
      assert parts[..|parts| - 1] == Split(s[..i]);
      assert s == s[..i] + ";" + s[i + 1..];
      assert ';' !in s[i + 1..];
  }

  ghost predicate AllValid(v: string) {
    forall i :: 0 <= i < |v| ==> ' ' <= v[i] <= '~' && v[i] !in "\";\\"
  }

  lemma {:induction false} AllValidIff(v: string)
    ensures AllValid(v) <==> forall i :: 0 <= i < |v| ==> ValidValueByte(v[i])
  {
    forall i | 0 <= i < |v|
      ensures ValidValueByte(v[i]) <==> ' ' <= v[i] <= '~' && v[i] !in "\";\\"
    {
      ValidByteIff(v[i]);
    }
    hide ValidValueByte;
  }

  /** A value is read if and only if it is made of valid bytes, or such bytes in quotes. */
  lemma {:induction false} ValueIsReadIff(raw: string, v: string)
    ensures ParseCookieValue(raw) == Some(v) <==> AllValid(v) && (raw == v || raw == "\"" + v + "\"")
  {
    var quoted := "\"" + v + "\"";
    assert quoted[1..|quoted| - 1] == v && quoted[0] == '\"' && quoted[|quoted| - 1] == '\"';
    AllValidIff(v);
    hide AllValid;
    if |raw| > 1 && raw[0] == '\"' && raw[|raw| - 1] == '\"' {
      var inner := raw[1..|raw| - 1];
      assert raw == "\"" + inner + "\"";
      assert !ValidValueByte(raw[0]);
    }
    hide ValidValueByte;
  }

  /** A piece is a cookie if and only if its name, what is before its first equals sign, is a token and the
      wanted one, and its value is read.  Without an equals sign the value is empty. */
  lemma {:induction false} PieceIsCookieIff(before: string, name: string, raw: string, after: string, filter: string,
                                            c: Cookie)
    requires forall i :: 0 <= i < |before| ==> IsWhite(before[i])
    requires forall i :: 0 <= i < |after| ==> IsWhite(after[i])
    requires '=' !in name && Tight(name + "=" + raw)
    ensures ReadPart(before + (name + "=" + raw) + after, filter) == Some(c) <==>
            && c.name == name && IsName(name) && (filter == "" || filter == name)
            && ParseCookieValue(raw) == Some(c.value)
  {
    var p := name + "=" + raw;
    TrimsAround(before, p, after);
    assert p[|name|] == '=' && forall i :: 0 <= i < |name| ==> p[i] == name[i];
    assert p[..|name|] == name && p[|name| + 1..] == raw;
    assert FirstIndex(p, '=') == Some(|name|);
    hide TrimSpace, FirstIndex, ParseCookieValue, IsName;
  }

  lemma {:induction false} NameAloneIff(before: string, name: string, after: string, filter: string, c: Cookie)
    requires forall i :: 0 <= i < |before| ==> IsWhite(before[i])
    requires forall i :: 0 <= i < |after| ==> IsWhite(after[i])
    requires '=' !in name && Tight(name)
    ensures ReadPart(before + name + after, filter) == Some(c) <==>
            c == Cookie(name, "") && IsName(name) && (filter == "" || filter == name)
  {
    TrimsAround(before, name, after);
    assert FirstIndex(name, '=') == None;
    assert ParseCookieValue("") == Some("");
    hide TrimSpace, FirstIndex, ParseCookieValue, IsName;
  }

  /** Lines are read one after the other. */
  lemma {:induction false} LinesAreRead(a: seq<string>, b: seq<string>, filter: string)
    ensures ReadLines(a + b, filter) == ReadLines(a, filter) + ReadLines(b, filter)
    ensures forall line :: ReadLines([line], filter) == ReadLine(line, filter)
    decreases |b|
  {
    hide ReadLine;
    forall line
      ensures ReadLines([line], filter) == ReadLine(line, filter)
    {
      OneLine(line, filter);
    }
    if b == [] {
      assert a + b == a;
    } else {
      assert (a + b)[..|a + b| - 1] == a + b[..|b| - 1];
      LinesAreRead(a, b[..|b| - 1], filter);
    }
  }

  lemma {:induction false} OneLine(line: string, filter: string)
    ensures ReadLines([line], filter) == ReadLine(line, filter)
  {
    hide ReadLine;
    assert [line][..0] == [] && ReadLines([], filter) == [];
  }

  method ReadCookies(header: Header, filter: string) returns (cookies: seq<Cookie>)
    ensures cookies == if COOKIE in header then ReadLines(header[COOKIE], filter) else []
  {
    hide Split, TrimSpace, ReadPart;
    cookies := [];
    if COOKIE !in header {
      return;
    }
    var lines := header[COOKIE];
    for l := 0 to |lines|
      invariant cookies == ReadLines(lines[..l], filter)
    {
      assert lines[..l + 1][..l] == lines[..l];
      var parts := Split(TrimSpace(lines[l]));
      ghost var before := cookies;
      if |parts| == 1 && parts[0] == "" {
        EmptyPart(filter);
        continue;
      }
      assert before + [] == before;
      for i := 0 to |parts|
        invariant cookies == before + ReadParts(parts[..i], filter)
      {
        assert parts[..i + 1][..i] == parts[..i];
        var c := ReadCookie(parts[i], filter);
        if c.Some? {
          cookies := cookies + [c.value];
        }
      }
      assert parts[..|parts|] == parts;
    }
    assert lines[..|lines|] == lines;
  }

  lemma {:induction false} EmptyPart(filter: string)
    ensures ReadParts([""], filter) == []
  {
    assert ReadPart("", filter) == None;
    assert [""][..0] == [];
  }

  /** The body of the inner loop. */
  method ReadCookie(part: string, filter: string) returns (c: Option<Cookie>)
    ensures c == ReadPart(part, filter)
  {
    var p := TrimSpace(part);
    if |p| == 0 {
      return None;
    }
    var name, value := p, "";
    var j := FirstIndex(p, '=');
    if j.Some? {
      name, value := p[..j.value], p[j.value + 1..];
    }
    if !IsName(name) {
      return None;
    }
    if filter != "" && filter != name {
      return None;
    }
    var v := ParseCookieValue(value);
    if v.None? {
      return None;
    }
    return Some(Cookie(name, v.value));
  }

  // ----- Round trip ----------------------------------------------------------------------------

  /** The cookies of the wanted name, each with its value reduced to its valid bytes. */
  function Reduced(cookies: seq<Cookie>, filter: string): (r: seq<Cookie>) {
    if cookies == [] then []
    else
      var c := cookies[|cookies| - 1];
      Reduced(cookies[..|cookies| - 1], filter) +
      if filter == "" || filter == c.name then [Cookie(c.name, ValidBytes(c.value))] else []
  }

  ghost predicate AllNames(cookies: seq<Cookie>) {
    forall i :: 0 <= i < |cookies| ==> IsName(cookies[i].name)
  }

  lemma {:induction false} QuotedParses(value: string)
    ensures ParseCookieValue(Quoted(ValidBytes(value))) == Some(ValidBytes(value))
  {
    var v := ValidBytes(value);
    hide ValidBytes;
    if NeedsQuotes(v) {
      var raw := "\"" + v + "\"";
      assert raw[1..|raw| - 1] == v;
    }
  }

  lemma {:induction false} PairShape(c: Cookie)
    requires IsName(c.name)
    ensures var p := Pair(c);
            && Tight(p) && ';' !in p
            && FirstIndex(p, '=') == Some(|c.name|)
            && p[..|c.name|] == c.name && p[|c.name| + 1..] == Quoted(ValidBytes(c.value))
  {
    var p, v, name := Pair(c), ValidBytes(c.value), SanitizedName(c.name);
    hide ValidBytes;
    assert name == c.name;
    var q := Quoted(v);
    assert p == name + "=" + q;
    assert p[..|name|] == name && p[|name|] == '=' && p[|name| + 1..] == q;
    QuotedBytes(v);
    hide Quoted, NeedsQuotes, Pair;
    assert Tight(p);
    assert forall i :: 0 <= i < |name| ==> p[i] == name[i];
    assert forall i :: |name| < i < |p| ==> p[i] == q[i - |name| - 1];
  }

  lemma {:induction false} QuotedBytes(v: string)
    requires forall i :: 0 <= i < |v| ==> ValidValueByte(v[i])
    ensures var q := Quoted(v);
            && (forall i :: 0 <= i < |q| ==> q[i] != ';')
            && (q != "" ==> !IsWhite(q[|q| - 1]))
  {
  }

  /** A piece with a written cookie gives the cookie. */
  lemma {:induction false} ReadsPair(c: Cookie, part: string, filter: string)
    requires IsName(c.name) && (part == Pair(c) || part == " " + Pair(c))
    ensures ReadPart(part, filter) ==
            if filter == "" || filter == c.name then Some(Cookie(c.name, ValidBytes(c.value))) else None
  {
    PairShape(c);
    QuotedParses(c.value);
    hide Pair, TrimSpace, ValidBytes, Quoted, FirstIndex, ParseCookieValue;
  }

  lemma {:induction false} SplitAppend(a: string, b: string)
    requires ';' !in b
    ensures Split(a + ";" + b) == Split(a) + [b]
  {
    var s := a + ";" + b;
    hide LastIndex;
    var k := LastIndex(s, ';');
    assert s[|a|] == ';' && s[|a|] in s;
    assert s[|a| + 1..] == b;
    assert forall i :: |a| < i < |s| ==> s[i] == b[i - |a| - 1];
    assert k == Some(|a|);
    assert s[..|a|] == a;
  }

  lemma {:induction false} LineIsTight(cookies: seq<Cookie>)
    requires cookies != [] && AllNames(cookies)
    ensures Tight(CookieLine(cookies))
  {
    var before, c := cookies[..|cookies| - 1], cookies[|cookies| - 1];
    PairShape(c);
    if before == [] {
      assert CookieLine(before) == "";
    } else {
      LineIsTight(before);
    }
    hide Pair;
  }

  lemma {:induction false} FirstReads(c: Cookie, filter: string)
    requires IsName(c.name)
    ensures ReadParts(Split(Pair(c)), filter) == Reduced([c], filter)
  {
    var p := Pair(c);
    PairShape(c);
    ReadsPair(c, p, filter);
    hide Pair, ReadPart, ValidBytes;
    assert [] + [p] == [p] && [c][..0] == [];
    assert Split(p) == [p];
  }

  lemma {:induction false} NextReads(line: string, c: Cookie, filter: string)
    requires IsName(c.name)
    ensures ReadParts(Split(line + "; " + Pair(c)), filter) ==
            ReadParts(Split(line), filter) +
            if filter == "" || filter == c.name then [Cookie(c.name, ValidBytes(c.value))] else []
  {
    var p := Pair(c);
    PairShape(c);
    ReadsPair(c, " " + p, filter);
    assert line + "; " + p == line + ";" + (" " + p);
    SplitAppend(line, " " + p);
    hide Split, ReadPart, Pair, ReadParts, ValidBytes;
  }

  lemma {:induction false} LineReads(cookies: seq<Cookie>, filter: string)
    requires cookies != [] && AllNames(cookies)
    ensures ReadParts(Split(CookieLine(cookies)), filter) == Reduced(cookies, filter)
  {
    var before, c := cookies[..|cookies| - 1], cookies[|cookies| - 1];
    if before == [] {
      assert cookies == [c] && CookieLine(before) == "";
      FirstReads(c, filter);
      hide Split, ReadParts, Reduced;
    } else {
      LineReads(before, filter);
      LineIsTight(before);
      NextReads(CookieLine(before), c, filter);
      hide Split, ReadParts, Pair, ValidBytes;
    }
  }

  /** Cookies added in turn are read back in order, with their values reduced to the valid bytes. */
  lemma {:induction false} RoundTrip(cookies: seq<Cookie>, filter: string)
    requires AllNames(cookies)
    ensures ReadLine(CookieLine(cookies), filter) == Reduced(cookies, filter)
  {
    if cookies == [] {
      assert Split("") == [""];
      EmptyPart(filter);
    } else {
      LineIsTight(cookies);
      LineReads(cookies, filter);
    }
  }

  lemma {:induction false} ReadNames(parts: seq<string>, filter: string)
    ensures AllNames(ReadParts(parts, filter))
  {
    if parts != [] {
      ReadNames(parts[..|parts| - 1], filter);
    }
  }

  lemma {:induction false} ReducedNames(cookies: seq<Cookie>)
    ensures AllNames(Reduced(cookies, "")) <==> AllNames(cookies)
    ensures |Reduced(cookies, "")| == |cookies|
  {
    if cookies != [] {
      var before := cookies[..|cookies| - 1];
      ReducedNames(before);
      var r, r' := Reduced(before, ""), Reduced(cookies, "");
      assert r'[..|before|] == r;
      if AllNames(r') {
        assert forall i :: 0 <= i < |r| ==> r[i] == r'[i];
        assert r'[|before|].name == cookies[|before|].name;
      }
    }
  }

  /** All of them come back so if and only if every name is made of token bytes. */
  lemma {:induction false} RoundTripIff(cookies: seq<Cookie>)
    ensures ReadLine(CookieLine(cookies), "") == Reduced(cookies, "") <==> AllNames(cookies)
  {
    if AllNames(cookies) {
      RoundTrip(cookies, "");
    }
    ReadNames(Split(TrimSpace(CookieLine(cookies))), "");
    ReducedNames(cookies);
  }

  /** A cookie with a token for a name comes back as it was if and only if its value has valid bytes only. */
  lemma {:induction false} UnchangedIff(c: Cookie)
    requires IsName(c.name)
    ensures ReadLine(CookieLine([c]), "") == [c] <==> AllValid(c.value)
  {
    RoundTrip([c], "");
    assert [c][..0] == [] && Reduced([c], "") == [Cookie(c.name, ValidBytes(c.value))];
    AllValidIff(c.value);
    if forall i :: 0 <= i < |c.value| ==> ValidValueByte(c.value[i]) {
      ValidBytesOfValid(c.value);
    }
    hide ReadLine, CookieLine, Reduced, AllValid;
  }

  /** A cookie with a token for a name, a plain value, and one that has to be quoted. */
  lemma {:induction false} PairOf(name: string, value: string)
    requires IsName(name) && AllValid(value)
    ensures value == "" || (value[0] !in " ," && value[|value| - 1] !in " ,") ==>
              Pair(Cookie(name, value)) == name + "=" + value
    ensures value != "" && (value[0] in " ," || value[|value| - 1] in " ,") ==>
              Pair(Cookie(name, value)) == name + "=\"" + value + "\""
  {
    AllValidIff(value);
    ValidBytesOfValid(value);
    assert SanitizedName(name) == name;
    hide ValidBytes, AllValid, SanitizedName;
  }

  /** Two cookies are in one line, the first one first. */
  lemma {:induction false} LineOfTwo(a: Cookie, b: Cookie)
    requires Pair(a) != ""
    ensures CookieLine([a, b]) == Pair(a) + "; " + Pair(b)
  {
    hide Pair;
    assert [a, b][..1] == [a] && [a][..0] == [];
    assert CookieLine([]) == "" && CookieLine([a]) == Pair(a);
  }

  /** The cookies added to a new request, as its receiver reads them. */
  method AddThenRead(cookies: seq<Cookie>, filter: string) returns (read: seq<Cookie>)
    ensures AllNames(cookies) ==> read == Reduced(cookies, filter)
    ensures filter == "" ==> (read == Reduced(cookies, "") <==> AllNames(cookies))
  {
    hide CookieLine, ReadLine, ReadLines, Reduced, AllNames;
    var r := new Request();
    AddCookies(r, cookies);
    read := ReadCookies(r.header, filter);
    if AllNames(cookies) {
      RoundTrip(cookies, filter);
    }
    RoundTripIff(cookies);
    if cookies == [] {
      NoCookies(filter);
    } else {
      assert r.header[COOKIE] == [CookieLine(cookies)];
      OneLine(CookieLine(cookies), filter);
    }
  }

  lemma {:induction false} NoCookies(filter: string)
    ensures Reduced([], filter) == [] && AllNames([])
  {
  }
}
