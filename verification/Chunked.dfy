/** The chunked transfer coding of http13client/chunked.go (section 3.6.1 of RFC 2616).

    The bytes still to come from the connection are the field `stream`.  How many of them one read of
    the connection gives, and whether a whole chunk header is buffered, is arbitrary. */
module Chunked {
  import opened Sequences

  const MAX_LINE_LENGTH: nat := 4096
  const TWO_TO_THE_64: nat := 0x1_0000_0000_0000_0000
  const CRLF := "\r\n"
  const LAST_CHUNK := "0\r\n"

  datatype ReadError = EOF | UnexpectedEOF | LineTooLong | InvalidLength | Malformed

  // ----- Chunk lengths -------------------------------------------------------------------------

  /** The digits in the order of their values. */
  const DIGITS := "0123456789abcdef"
  const UPPER_DIGITS := "0123456789ABCDEF"

  function HexValue(c: char): (r: Option<nat>)
    ensures r.Some? ==> r.value < 16
  {
    if '0' <= c <= '9' then Some(c as nat - '0' as nat)
    else if 'a' <= c <= 'f' then Some(c as nat - 'a' as nat + 10)
    else if 'A' <= c <= 'F' then Some(c as nat - 'A' as nat + 10)
    else None
  }

  /** The number the digits stand for. */
  function HexNumber(v: string): (r: Option<nat>) {
    if v == "" then Some(0)
    else
      match (HexNumber(v[..|v| - 1]), HexValue(v[|v| - 1]))
      case (Some(n), Some(d)) => Some(16 * n + d)
      case (_, _) => None
  }

  /** Digits are shifted into 64 bits; what is shifted out is lost. */
  function ParseHex(v: string): (r: Option<nat>)
    ensures r.Some? ==> r.value < TWO_TO_THE_64
  {
    if v == "" then Some(0)
    else
      match (ParseHex(v[..|v| - 1]), HexValue(v[|v| - 1]))
      case (Some(n), Some(d)) => ShiftKeeps(n, d); Some(n * 16 % TWO_TO_THE_64 + d)
      case (_, _) => None
  }

  lemma {:induction false} ShiftKeeps(n: nat, d: nat)
    requires d < 16
    ensures n * 16 % TWO_TO_THE_64 + d < TWO_TO_THE_64
    ensures n * 16 % TWO_TO_THE_64 + d == (n * 16 + d) % TWO_TO_THE_64
  {
    var m := n * 16 / TWO_TO_THE_64;
    assert TWO_TO_THE_64 == 16 * 0x1000_0000_0000_0000;
    var low := n * 16 % TWO_TO_THE_64;
    assert low == 16 * (n - m * 0x1000_0000_0000_0000);
  }

  /** Parsing gives the number modulo 2 to the 64th, so the number itself if and only if it fits. */
  lemma {:induction false} ParseIsModulo(v: string)
    ensures ParseHex(v).Some? <==> HexNumber(v).Some?
    ensures HexNumber(v).Some? ==> ParseHex(v).value == HexNumber(v).value % TWO_TO_THE_64
    ensures HexNumber(v).Some? ==> (ParseHex(v) == HexNumber(v) <==> HexNumber(v).value < TWO_TO_THE_64)
  {
    if v != "" {
      var init := v[..|v| - 1];
      ParseIsModulo(init);
      if HexNumber(v).Some? {
        var n, p, d := HexNumber(init).value, ParseHex(init).value, HexValue(v[|v| - 1]).value;
        ShiftKeeps(p, d);
        var q := n / TWO_TO_THE_64;
        assert 16 * n + d == p * 16 + d + TWO_TO_THE_64 * (16 * q);
        ModuloShift(p * 16 + d, 16 * q);
      }
    }
  }

  lemma {:induction false} ModuloShift(a: nat, k: nat)
    ensures (a + TWO_TO_THE_64 * k) % TWO_TO_THE_64 == a % TWO_TO_THE_64
    decreases k
  {
    if k > 0 {
      ModuloShift(a, k - 1);
      var b := a + TWO_TO_THE_64 * (k - 1);
      assert (b + TWO_TO_THE_64) % TWO_TO_THE_64 == b % TWO_TO_THE_64;
    }
  }

  /** The text spells the number: its last character is the digit of the ones, the one before it that of the
      sixteens, and so on, in any case; nothing is left after the first. */
  predicate Spells(v: string, n: nat) {
    if v == "" then n == 0
    else
      var c := v[|v| - 1];
      (c == DIGITS[n % 16] || c == UPPER_DIGITS[n % 16]) && Spells(v[..|v| - 1], n / 16)
  }

  lemma {:induction false} NumberIffSpelled(v: string, n: nat)
    ensures HexNumber(v) == Some(n) <==> Spells(v, n)
  {
    if v != "" {
      var init, c := v[..|v| - 1], v[|v| - 1];
      NumberIffSpelled(init, n / 16);
      DigitIff(c, n % 16);
      hide Spells, HexValue;
      if HexNumber(v) == Some(n) {
        var m, d := HexNumber(init).value, HexValue(c).value;
        assert n == 16 * m + d && n / 16 == m && n % 16 == d;
      }
    }
  }

  lemma {:induction false} DigitChars(d: nat)
    requires d < 16
    ensures DIGITS[d] as nat == if d < 10 then '0' as nat + d else 'a' as nat + d - 10
    ensures UPPER_DIGITS[d] as nat == if d < 10 then '0' as nat + d else 'A' as nat + d - 10
  {
    var s, u := DIGITS, UPPER_DIGITS;
    assert s[0] == '0' && s[1] == '1' && s[2] == '2' && s[3] == '3' && s[4] == '4' && s[5] == '5' && s[6] == '6';
    assert s[7] == '7' && s[8] == '8' && s[9] == '9' && s[10] == 'a' && s[11] == 'b' && s[12] == 'c' && s[13] == 'd';
    assert s[14] == 'e' && s[15] == 'f';
    assert u[0] == '0' && u[1] == '1' && u[2] == '2' && u[3] == '3' && u[4] == '4' && u[5] == '5' && u[6] == '6';
    assert u[7] == '7' && u[8] == '8' && u[9] == '9' && u[10] == 'A' && u[11] == 'B' && u[12] == 'C' && u[13] == 'D';
    assert u[14] == 'E' && u[15] == 'F';
  }

  lemma {:induction false} DigitIff(c: char, d: nat)
    requires d < 16
    ensures HexValue(c) == Some(d) <==> c == DIGITS[d] || c == UPPER_DIGITS[d]
  {
    DigitChars(d);
    assert c as nat as char == c;
  }

  function Pow16(k: nat): (r: nat) {
    if k == 0 then 1 else 16 * Pow16(k - 1)
  }

  lemma {:induction false} NumberIsBelow(v: string, k: nat)
    requires |v| <= k && HexNumber(v).Some?
    ensures HexNumber(v).value < Pow16(k)
    decreases k
  {
    if k > 0 {
      assert Pow16(k) == 16 * Pow16(k - 1);
      if v != "" {
        NumberIsBelow(v[..|v| - 1], k - 1);
      } else {
        NumberIsBelow(v, k - 1);
      }
    }
  }

  lemma {:induction false} Pow16Of16()
    ensures Pow16(16) == TWO_TO_THE_64
  {
    assert Pow16(4) == 0x1_0000;
    assert Pow16(8) == 0x1_0000_0000;
    assert Pow16(12) == 0x1_0000_0000_0000;
  }

  lemma {:induction false} NumberIffDigits(v: string)
    ensures HexNumber(v).Some? <==> forall i :: 0 <= i < |v| ==> v[i] in DIGITS || v[i] in UPPER_DIGITS
  {
    if v != "" {
      var init, c := v[..|v| - 1], v[|v| - 1];
      NumberIffDigits(init);
      IsDigitIff(c);
      hide HexValue;
      assert v == init + [c];
    }
  }

  lemma {:induction false} IsDigitIff(c: char)
    ensures HexValue(c).Some? <==> c in DIGITS || c in UPPER_DIGITS
  {
    if HexValue(c).Some? {
      DigitIff(c, HexValue(c).value);
    }
    if c in DIGITS {
      var d :| 0 <= d < 16 && DIGITS[d] == c;
      DigitIff(c, d);
    }
    if c in UPPER_DIGITS {
      var d :| 0 <= d < 16 && UPPER_DIGITS[d] == c;
      DigitIff(c, d);
    }
  }

  /** A text is parsed if and only if it has only digits, and one of up to 16 digits gives the number that it
      spells. */
  lemma {:induction false} ParsedIffSpelled(v: string)
    ensures ParseHex(v).Some? <==> forall i :: 0 <= i < |v| ==> v[i] in DIGITS || v[i] in UPPER_DIGITS
    ensures |v| <= 16 ==> forall n: nat :: ParseHex(v) == Some(n) <==> Spells(v, n)
  {
    ParseIsModulo(v);
    NumberIffDigits(v);
    hide ParseHex, HexNumber, Spells, Pow16;
    if |v| <= 16 {
      forall n: nat
        ensures HexNumber(v) == Some(n) <==> Spells(v, n)
      {
        NumberIffSpelled(v, n);
      }
      if HexNumber(v).Some? {
        NumberIsBelow(v, 16);
        Pow16Of16();
      }
    }
  }

  method ParseHexUint(v: string) returns (n: nat, ok: bool)
    ensures ok == ParseHex(v).Some? && (ok ==> n == ParseHex(v).value)
    ensures ok <==> forall i :: 0 <= i < |v| ==> v[i] in DIGITS || v[i] in UPPER_DIGITS
    ensures ok && |v| <= 16 ==> Spells(v, n)
  {
    ParsedIffSpelled(v);
    hide ParseHex, Spells;
    n, ok := 0, true;
    ParseHexNone(v);
    for i := 0 to |v|
      invariant ParseHex(v[..i]) == Some(n)
    {
      ParseHexStep(v, i);
      n := n * 16 % TWO_TO_THE_64;
      var d;
      if '0' <= v[i] <= '9' {
        d := v[i] as nat - '0' as nat;
      } else if 'a' <= v[i] <= 'f' {
        d := v[i] as nat - 'a' as nat + 10;
      } else if 'A' <= v[i] <= 'F' {
        d := v[i] as nat - 'A' as nat + 10;
      } else {
        ParseHexFails(v, i);
        return 0, false;
      }
      n := n + d;
    }
    assert v[..|v|] == v;
  }

  lemma {:induction false} ParseHexNone(v: string)
    ensures ParseHex(v[..0]) == Some(0)
  {
  }

  lemma {:induction false} ParseHexStep(v: string, i: nat)
    requires i < |v|
    ensures ParseHex(v[..i]).Some? && HexValue(v[i]).Some? ==>
              ParseHex(v[..i + 1]) == Some(ParseHex(v[..i]).value * 16 % TWO_TO_THE_64 + HexValue(v[i]).value)
  {
    assert v[..i + 1][..i] == v[..i];
  }

  lemma {:induction false} ParseHexFails(v: string, i: nat)
    requires i < |v| && HexValue(v[i]).None?
    ensures ParseHex(v).None?
  {
    if i < |v| - 1 {
      ParseHexFails(v[..|v| - 1], i);
    }
  }

  /** The digits of a number, as `%x` prints them. */
  function HexPrint(n: nat): (r: string) {
    if n < 16 then [HexDigit(n)] else HexPrint(n / 16) + [HexDigit(n % 16)]
  }

  function HexDigit(d: nat): (c: char)
    requires d < 16
    ensures HexValue(c) == Some(d) && c != '\n' && !IsSpace(c)
  {
    DIGITS[d]
  }

  lemma {:induction false} PrintsNumber(n: nat)
    ensures HexNumber(HexPrint(n)) == Some(n)
  {
    if n < 16 {
      assert HexPrint(n)[..0] == "";
    } else {
      PrintsNumber(n / 16);
      assert HexPrint(n)[..|HexPrint(n)| - 1] == HexPrint(n / 16);
    }
  }

  /** Parsing inverts printing for every number of 64 bits. */
  lemma {:induction false} ParseInvertsPrint(n: nat)
    requires n < TWO_TO_THE_64
    ensures ParseHex(HexPrint(n)) == Some(n)
  {
    PrintsNumber(n);
    ParseIsModulo(HexPrint(n));
  }

  /** The same text with capital letters. */
  function Upper(v: string): (r: string)
    ensures |r| == |v|
    ensures forall i :: 0 <= i < |v| ==> r[i] == if 'a' <= v[i] <= 'z' then v[i] - 'a' + 'A' else v[i]
  {
    seq(|v|, i requires 0 <= i < |v| => if 'a' <= v[i] <= 'z' then v[i] - 'a' + 'A' else v[i])
  }

  /** Capital letters do not matter. */
  lemma {:induction false} CaseDoesNotMatter(v: string)
    ensures ParseHex(Upper(v)) == ParseHex(v)
  {
    if v != "" {
      CaseDoesNotMatter(v[..|v| - 1]);
      assert Upper(v)[..|v| - 1] == Upper(v[..|v| - 1]);
      var c, d := v[|v| - 1], Upper(v)[|v| - 1];
      assert HexValue(d) == HexValue(c);
      hide HexValue;
    }
  }

  /** Numbers are printed in small letters, without leading zeros. */
  lemma {:induction false} PrintIsCanonical(n: nat)
    ensures HexPrint(n) != "" && (HexPrint(n)[0] == '0' <==> n == 0) && Spells(HexPrint(n), n)
    ensures forall i :: 0 <= i < |HexPrint(n)| ==> HexPrint(n)[i] in DIGITS
  {
    PrintsNumber(n);
    NumberIffSpelled(HexPrint(n), n);
    PrintsSmall(n);
  }

  lemma {:induction false} PrintsSmall(n: nat)
    ensures HexPrint(n) != "" && (HexPrint(n)[0] == '0' <==> n == 0)
    ensures forall i :: 0 <= i < |HexPrint(n)| ==> HexPrint(n)[i] in DIGITS
  {
    if n >= 16 {
      PrintsSmall(n / 16);
    }
  }

  // ----- Lines ---------------------------------------------------------------------------------

  predicate IsSpace(c: char) {
    c == ' ' || c == '\t' || c == '\n' || c == '\r'
  }

  function Trimmed(s: string): (r: string)
    ensures r <= s && (r == "" || !IsSpace(r[|r| - 1]))
    ensures forall i :: |r| <= i < |s| ==> IsSpace(s[i])
  {
    if s != "" && IsSpace(s[|s| - 1]) then Trimmed(s[..|s| - 1]) else s
  }

  method TrimTrailingWhitespace(s: string) returns (r: string)
    ensures r == Trimmed(s)
  {
    r := s;
    while r != "" && IsSpace(r[|r| - 1])
      invariant Trimmed(r) == Trimmed(s)
      decreases |r|
    {
      r := r[..|r| - 1];
    }
  }

  datatype Line = Line(text: string, rest: string) | BadLine(error: ReadError)

  function FindNewline(s: string): (r: Option<nat>)
    ensures r.Some? ==> r.value < |s| && s[r.value] == '\n' && forall i :: 0 <= i < r.value ==> s[i] != '\n'
    ensures r.None? ==> forall i :: 0 <= i < |s| ==> s[i] != '\n'
  {
    if s == "" then None
    else if s[0] == '\n' then Some(0)
    else match FindNewline(s[1..]) case None => None case Some(i) => Some(i + 1)
  }

  /** The first line without its trailing white space; a line has to end, and within the limit. */
  function ReadLine(stream: string): (r: Line)
    ensures r.Line? ==> |r.rest| < |stream|
  {
    match FindNewline(stream)
    case Some(k) =>
      if k + 1 < MAX_LINE_LENGTH then Line(Trimmed(stream[..k + 1]), stream[k + 1..]) else BadLine(LineTooLong)
    case None =>
      if |stream| >= MAX_LINE_LENGTH then BadLine(LineTooLong) else BadLine(UnexpectedEOF)
  }

  /** A line is read if and only if it ends within the first 4095 bytes; otherwise it is too long, unless the
      stream ends before. */
  lemma {:induction false} LineIff(stream: string)
    ensures ReadLine(stream).Line? <==> exists k :: 0 <= k < |stream| && k < 4095 && stream[k] == '\n'
    ensures ReadLine(stream).BadLine? ==>
              ReadLine(stream).error == if |stream| < 4096 then UnexpectedEOF else LineTooLong
  {
    var k := FindNewline(stream);
    hide FindNewline;
    if k.Some? {
      assert stream[k.value] == '\n';
    }
  }

  /** Exactly the white space at the end of a line is trimmed. */
  lemma {:induction false} TrimsWhite(text: string, white: string)
    requires text == "" || text[|text| - 1] !in " \t\r\n"
    requires forall i :: 0 <= i < |white| ==> white[i] in " \t\r\n"
    ensures Trimmed(text + white) == text
    decreases |white|
  {
    var s := text + white;
    if white == "" {
      assert s == text;
    } else {
      assert s[..|s| - 1] == text + white[..|white| - 1];
      TrimsWhite(text, white[..|white| - 1]);
    }
  }

  method NextLine(stream: string) returns (line: Line)
    ensures line == ReadLine(stream)
  {
    var k := FindNewline(stream);
    if k.None? {
      return BadLine(if |stream| >= MAX_LINE_LENGTH then LineTooLong else UnexpectedEOF);
    }
    if k.value + 1 >= MAX_LINE_LENGTH {
      return BadLine(LineTooLong);
    }
    var text := TrimTrailingWhitespace(stream[..k.value + 1]);
    return Line(text, stream[k.value + 1..]);
  }

  // ----- Decoding in one go --------------------------------------------------------------------

  /** The data up to the end or an error, and what is left of the stream after a proper end. */
  datatype Decoded = Decoded(data: string, error: ReadError, rest: string)

  function Prepend(data: string, d: Decoded): (r: Decoded) {
    Decoded(data + d.data, d.error, d.rest)
  }

  /** What is in the stream when `n` bytes of a chunk are still to come.  A stream that ends within
      the data of a chunk, or just after it, is not told from one that ends properly. */
  function Decode(n: nat, stream: string): (r: Decoded)
    decreases |stream|
  {
    if n == 0 then
      match ReadLine(stream)
      case BadLine(error) => Decoded("", error, "")
      case Line(text, rest) =>
        match ParseHex(text)
        case None => Decoded("", InvalidLength, "")
        case Some(m) => if m == 0 then Decoded("", EOF, rest) else Decode(m, rest)
    else if |stream| <= n then Decoded(stream, EOF, "")
    else if |stream| == n + 1 then Decoded(stream[..n], UnexpectedEOF, "")
    else if stream[n..n + 2] != CRLF then Decoded(stream[..n], Malformed, "")
    else Prepend(stream[..n], Decode(0, stream[n + 2..]))
  }

  lemma {:induction false} DecodeNothing(n: nat)
    requires n > 0
    ensures Decode(n, "") == Prepend("", Decoded("", EOF, ""))
  {
  }

  lemma {:induction false} PrependTwice(a: string, b: string, d: Decoded)
    ensures Prepend(a, Prepend(b, d)) == Prepend(a + b, d)
  {
    assert a + (b + d.data) == a + b + d.data;
  }

  lemma {:induction false} DecodeChunk(n: nat, stream: string)
    requires 0 < n && n + 2 <= |stream| && stream[n..n + 2] == CRLF
    ensures Decode(n, stream) == Prepend(stream[..n], Decode(0, stream[n + 2..]))
  {
  }

  /** Taking a part of a chunk. */
  lemma {:induction false} DecodePart(n: nat, stream: string, k: nat)
    requires k < n && k <= |stream|
    ensures Decode(n, stream) == Prepend(stream[..k], Decode(n - k, stream[k..]))
  {
    var later := stream[k..];
    assert stream[..k] + later == stream;
    if |stream| > n {
      assert stream[..k] + later[..n - k] == stream[..n];
      if |stream| > n + 1 {
        assert later[n - k..n - k + 2] == stream[n..n + 2];
        if stream[n..n + 2] == CRLF {
          DecodeChunk(n, stream);
          DecodeChunk(n - k, later);
          assert later[n - k + 2..] == stream[n + 2..];
          PrependTwice(stream[..k], later[..n - k], Decode(0, stream[n + 2..]));
        }
      }
    }
  }

  // ----- The reader ----------------------------------------------------------------------------

  class ChunkedReader {
    var stream: string
    var n: nat
    var err: Option<ReadError>

    constructor (stream: string)
      ensures Remaining() == Decode(0, stream)
    {
      this.stream, n, err := stream, 0, None;
    }

    /** What the reader has still to deliver. */
    ghost function Remaining(): (r: Decoded)
      reads this
    {
      match err
      case None => Decode(n, stream)
      case Some(error) => Decoded("", error, if error == EOF then stream else "")
    }

    method BeginChunk()
      requires err.None? && n == 0
      modifies this
      ensures Remaining() == old(Remaining())
      ensures |stream| <= |old(stream)| && (err.None? ==> |stream| < |old(stream)|)
    {
      var line := NextLine(stream);
      match line
      case BadLine(error) => err := Some(error);
      case Line(text, rest) =>
        stream := rest;
        var m, ok := ParseHexUint(text);
        if !ok {
          err := Some(InvalidLength);
          return;
        }
        n := m;
        if n == 0 {
          err := Some(EOF);
        }
    }

    /** Reads at most `limit` bytes of the stream, at least one if there is any. */
    method ReadSome(limit: nat) returns (got: string)
      requires err.None? && 0 < limit <= n
      modifies this`stream, this`err
      ensures |got| <= limit
      ensures got != "" ==> err.None? && old(stream) == got + stream
      ensures got == "" ==> old(stream) == "" && stream == "" && err == Some(EOF)
    {
      if |stream| == 0 {
        err := Some(EOF);
        return "";
      }
      var most := if limit < |stream| then limit else |stream|;
      var k: int := *;
      if k < 1 || k > most {
        k := most;
      }
      got := stream[..k];
      stream := stream[k..];
    }

    /** After the data of a chunk come two bytes that have to be a line end. */
    method EndChunk()
      requires err.None? && n == 0
      modifies this`stream, this`err
      ensures err.None? ==> |old(stream)| >= 2 && old(stream)[..2] == CRLF && stream == old(stream)[2..]
      ensures err.Some? ==> stream == ""
      ensures err.Some? ==> err.value == if |old(stream)| == 0 then EOF
                                         else if |old(stream)| == 1 then UnexpectedEOF else Malformed
      ensures err.Some? && |old(stream)| >= 2 ==> old(stream)[..2] != CRLF
    {
      if |stream| < 2 {
        err := Some(if |stream| == 0 then EOF else UnexpectedEOF);
        stream := "";
      } else if stream[..2] != CRLF {
        err := Some(Malformed);
        stream := "";
      } else {
        stream := stream[2..];
      }
    }

    /** Reads into the buffer.  After the first chunk it does not wait for the header of another. */
    method Read(b: array<char>) returns (count: nat, error: Option<ReadError>)
      modifies this, b
      ensures count <= b.Length && error == err
      ensures old(Remaining()) == Prepend(b[..count], Remaining())
      ensures b[count..] == old(b[count..])
      ensures b.Length > 0 ==> count > 0 || err.Some?
    {
      hide Decode;
      count := 0;
      while err.None?
        invariant count <= b.Length && b[count..] == old(b[count..])
        invariant old(Remaining()) == Prepend(b[..count], Remaining())
        decreases |stream| + if err.None? then 1 else 0
      {
        if n == 0 {
          var headerAvailable: bool := *;
          if count > 0 && !headerAvailable {
            break;
          }
          BeginChunk();
          continue;
        }
        if count == b.Length {
          break;
        }
        var got := ReadChunk(if b.Length - count < n then b.Length - count else n);
        ghost var before := b[..count];
        CopyInto(b, count, got);
        count := count + |got|;
        PrependTwice(before, got, Remaining());
      }
      error := err;
    }

    static method CopyInto(b: array<char>, at: nat, got: string)
      requires at + |got| <= b.Length
      modifies b
      ensures b[..at + |got|] == old(b[..at]) + got
      ensures b[at + |got|..] == old(b[at + |got|..])
    {
      for i := 0 to |got|
        invariant b[..at] == old(b[..at]) && b[at + |got|..] == old(b[at + |got|..])
        invariant b[at..at + i] == got[..i]
      {
        b[at + i] := got[i];
      }
      assert b[..at + |got|] == b[..at] + b[at..at + |got|];
    }

    /** Reads a part of the current chunk, and the line end after it when that was all. */
    method ReadChunk(limit: nat) returns (got: string)
      requires err.None? && 0 < limit <= n
      modifies this
      ensures |got| <= limit
      ensures old(Remaining()) == Prepend(got, Remaining())
      ensures got != "" || err.Some?
      ensures |stream| <= |old(stream)| && (err.None? ==> |stream| < |old(stream)|)
    {
      ghost var before, n0 := stream, n;
      DecodeNothing(n0);
      hide Decode;
      got := ReadSome(limit);
      n := n - |got|;
      if got == "" {
        return;
      }
      assert before[..|got|] == got && before[|got|..] == stream;
      if n > 0 {
        DecodePart(n0, before, |got|);
      } else {
        ghost var next := stream;
        EndChunk();
        assert |next| >= 2 ==> next[..2] == before[n0..n0 + 2] && next[2..] == before[n0 + 2..];
        WholeChunk(n0, before, got);
      }
    }

    lemma {:induction false} WholeChunk(n0: nat, before: string, got: string)
      requires 0 < n0 == |got| <= |before| && before[..n0] == got && n == 0
      requires err.None? ==> |before| >= n0 + 2 && before[n0..n0 + 2] == CRLF && stream == before[n0 + 2..]
      requires err.Some? ==> stream == ""
      requires err.Some? ==> err.value == if |before| == n0 then EOF
                                          else if |before| == n0 + 1 then UnexpectedEOF else Malformed
      requires err.Some? && |before| >= n0 + 2 ==> before[n0..n0 + 2] != CRLF
      ensures Decode(n0, before) == Prepend(got, Remaining())
    {
      if err.None? {
        DecodeChunk(n0, before);
      } else {
        assert got + "" == got;
        if |before| == n0 {
          assert before == got;
        }
      }
    }
  }

  /** Reads everything, with buffers of any sizes.  What comes out does not depend on the sizes, nor
      on how the connection cuts up the stream. */
  method ReadAll(reader: ChunkedReader) returns (data: string, error: ReadError)
    modifies reader
    ensures Decoded(data, error, reader.Remaining().rest) == old(reader.Remaining())
    ensures reader.err == Some(error)
  {
    data := "";
    ghost var goal := reader.Remaining();
    assert Prepend("", goal) == goal;
    while reader.err.None?
      invariant Prepend(data, reader.Remaining()) == goal
      decreases |reader.Remaining().data|, if reader.err.None? then 1 else 0
    {
      var size: int := *;
      var b := new char[if size < 1 then 1 else size](_ => ' ');
      ghost var before := reader.Remaining();
      var count, _ := reader.Read(b);
      PrependTwice(data, b[..count], reader.Remaining());
      data := data + b[..count];
    }
    error := reader.err.value;
  }

  // ----- The writer ----------------------------------------------------------------------------

  /** Data as one chunk. */
  function Chunk(data: string): (r: string) {
    if data == "" then "" else HexPrint(|data|) + CRLF + data + CRLF
  }

  class ChunkedWriter {
    var wire: string

    constructor ()
      ensures wire == ""
    {
      wire := "";
    }

    method Write(data: string)
      modifies this
      ensures wire == old(wire) + Chunk(data)
    {
      if |data| == 0 {
        return;
      }
      wire := wire + (HexPrint(|data|) + CRLF);
      wire := wire + data;
      wire := wire + CRLF;
      assert wire == old(wire) + (HexPrint(|data|) + CRLF + data + CRLF);
    }

    method Close()
      modifies this
      ensures wire == old(wire) + LAST_CHUNK
    {
      wire := wire + LAST_CHUNK;
    }
  }

  function Chunks(writes: seq<string>): (r: string) {
    if writes == [] then "" else Chunk(writes[0]) + Chunks(writes[1..])
  }

  function Concat(writes: seq<string>): (r: string) {
    if writes == [] then "" else writes[0] + Concat(writes[1..])
  }

  // ----- Round trip ----------------------------------------------------------------------------

  lemma {:induction false} PrintLength(n: nat, k: nat)
    requires n < Pow16(k) && k > 0
    ensures 0 < |HexPrint(n)| <= k
    ensures forall i :: 0 <= i < |HexPrint(n)| ==> !IsSpace(HexPrint(n)[i])
  {
    if n >= 16 {
      assert k > 1 by {
        assert Pow16(0) == 1;
      }
      PrintLength(n / 16, k - 1);
    }
  }

  lemma {:induction false} PrintFits(n: nat)
    requires n < TWO_TO_THE_64
    ensures 0 < |HexPrint(n)| <= 16
    ensures forall i :: 0 <= i < |HexPrint(n)| ==> !IsSpace(HexPrint(n)[i])
  {
    Pow16Of16();
    PrintLength(n, 16);
  }

  /** A line of up to 4093 characters, which are not white space, is read. */
  lemma {:induction false} ReadsLine(text: string, rest: string)
    requires 0 < |text| <= 4093 && forall i :: 0 <= i < |text| ==> text[i] !in " \t\r\n"
    ensures ReadLine(text + CRLF + rest) == Line(text, rest)
  {
    var stream, k := text + CRLF + rest, |text| + 1;
    assert stream[k] == '\n' && forall i :: 0 <= i < k ==> stream[i] != '\n';
    assert FindNewline(stream) == Some(k);
    assert stream[..k + 1] == text + CRLF && stream[k + 1..] == rest;
    TrimsWhite(text, CRLF);
  }

  lemma {:induction false} ReadsHeader(n: nat, rest: string)
    requires n < TWO_TO_THE_64
    ensures ReadLine(HexPrint(n) + CRLF + rest) == Line(HexPrint(n), rest)
  {
    PrintFits(n);
    ReadsLine(HexPrint(n), rest);
  }

  /** After the header of a chunk comes the chunk. */
  lemma {:induction false} DecodesHeader(n: nat, after: string)
    requires 0 < n < TWO_TO_THE_64
    ensures Decode(0, HexPrint(n) + CRLF + after) == Decode(n, after)
  {
    ReadsHeader(n, after);
    ParseInvertsPrint(n);
    hide ReadLine, HexPrint, ParseHex;
  }

  /** One chunk comes back, and then what follows it. */
  lemma {:induction false} DecodesChunk(data: string, rest: string)
    requires |data| < TWO_TO_THE_64
    ensures Decode(0, Chunk(data) + rest) == Prepend(data, Decode(0, rest))
  {
    if data == "" {
      assert Chunk(data) + rest == rest;
      var d := Decode(0, rest).data;
      assert "" + d == d;
    } else {
      hide Decode, HexPrint, Prepend;
      var n, after := |data|, data + CRLF + rest;
      assert Chunk(data) + rest == HexPrint(n) + CRLF + after;
      DecodesHeader(n, after);
      assert after[..n] == data && after[n..n + 2] == CRLF && after[n + 2..] == rest;
      DecodeChunk(n, after);
    }
  }

  lemma {:induction false} DecodesEnd(tail: string)
    ensures Decode(0, LAST_CHUNK + tail) == Decoded("", EOF, tail)
  {
    assert LAST_CHUNK + tail == HexPrint(0) + CRLF + tail;
    ReadsHeader(0, tail);
    ParseInvertsPrint(0);
  }

  lemma {:induction false} FirstChunk(writes: seq<string>, after: string)
    requires writes != []
    ensures Chunks(writes) + after == Chunk(writes[0]) + (Chunks(writes[1..]) + after)
  {
    hide Chunk;
  }

  /** Whatever is written comes back whole and in order, and then what follows it. */
  lemma {:induction false} DecodesChunks(writes: seq<string>, rest: string)
    requires forall i :: 0 <= i < |writes| ==> |writes[i]| < TWO_TO_THE_64
    ensures Decode(0, Chunks(writes) + rest) == Prepend(Concat(writes), Decode(0, rest))
  {
    if writes == [] {
      assert Chunks(writes) + rest == rest;
      var d := Decode(0, rest);
      assert "" + d.data == d.data;
    } else {
      hide Decode, Chunk, Prepend;
      DecodesChunks(writes[1..], rest);
      FirstChunk(writes, rest);
      DecodesChunk(writes[0], Chunks(writes[1..]) + rest);
      PrependTwice(writes[0], Concat(writes[1..]), Decode(0, rest));
    }
  }

  lemma {:induction false} ChunkOnTheWire(data: string)
    ensures |data| == 5 ==> Chunk(data) == "5\r\n" + data + "\r\n"
    ensures |data| == 20 ==> Chunk(data) == "14\r\n" + data + "\r\n"
  {
    assert HexPrint(5) == "5" && HexPrint(1) == "1" && HexPrint(20) == HexPrint(1) + "4";
  }

  /** For instance, this is what goes over the wire for 20 bytes, nothing, and 5 bytes. */
  lemma {:induction false} OnTheWire(a: string, b: string)
    requires |a| == 20 && |b| == 5
    ensures Chunks([a, "", b]) + LAST_CHUNK == "14\r\n" + a + "\r\n5\r\n" + b + "\r\n0\r\n"
  {
    ChunkOnTheWire(a);
    ChunkOnTheWire(b);
    assert Chunk("") == "";
    hide Chunk;
    assert [a, "", b][1..] == ["", b] && ["", b][1..] == [b] && [b][1..] == [];
    assert Chunks([b]) == Chunk(b);
    assert Chunks(["", b]) == Chunk(b);
  }

  /** So after all writes comes the end, with the stream just after the line of the last chunk. */
  lemma {:induction false} RoundTrip(writes: seq<string>, tail: string)
    requires forall i :: 0 <= i < |writes| ==> |writes[i]| < TWO_TO_THE_64
    ensures Decode(0, Chunks(writes) + (LAST_CHUNK + tail)) == Decoded(Concat(writes), EOF, tail)
  {
    DecodesEnd(tail);
    DecodesChunks(writes, LAST_CHUNK + tail);
    assert Concat(writes) + "" == Concat(writes);
  }

  /** A stream cut off within a chunk also reads as a proper end, with the data up to there. */
  lemma {:induction false} TruncationLooksComplete(writes: seq<string>, n: nat, part: string)
    requires forall i :: 0 <= i < |writes| ==> |writes[i]| < TWO_TO_THE_64
    requires 0 < n < TWO_TO_THE_64 && |part| <= n
    ensures Decode(0, Chunks(writes) + (HexPrint(n) + CRLF + part)) == Decoded(Concat(writes) + part, EOF, "")
  {
    DecodesHeader(n, part);
    DecodesChunks(writes, HexPrint(n) + CRLF + part);
  }

  /** The data of a chunk has to be followed by a line end. */
  lemma {:induction false} NoLineEndIsMalformed(writes: seq<string>, data: string, tail: string)
    requires forall i :: 0 <= i < |writes| ==> |writes[i]| < TWO_TO_THE_64
    requires 0 < |data| < TWO_TO_THE_64 && |tail| >= 2 && tail[..2] != "\r\n"
    ensures Decode(0, Chunks(writes) + (HexPrint(|data|) + CRLF + (data + tail))) ==
            Decoded(Concat(writes) + data, Malformed, "")
  {
    DecodesHeader(|data|, data + tail);
    assert (data + tail)[..|data|] == data && (data + tail)[|data|..|data| + 2] == tail[..2];
    DecodesChunks(writes, HexPrint(|data|) + CRLF + (data + tail));
    hide Chunks, HexPrint, Concat;
  }

  /** A header with another character than digits is an error. */
  lemma {:induction false} NoNumberIsInvalid(writes: seq<string>, header: string, tail: string)
    requires forall i :: 0 <= i < |writes| ==> |writes[i]| < TWO_TO_THE_64
    requires 0 < |header| <= 4093 && forall i :: 0 <= i < |header| ==> header[i] !in " \t\r\n"
    requires exists i :: 0 <= i < |header| && header[i] !in DIGITS && header[i] !in UPPER_DIGITS
    ensures Decode(0, Chunks(writes) + (header + CRLF + tail)) == Decoded(Concat(writes), InvalidLength, "")
  {
    ReadsLine(header, tail);
    ParsedIffSpelled(header);
    DecodesChunks(writes, header + CRLF + tail);
    assert Concat(writes) + "" == Concat(writes);
    hide Chunks, Concat, ReadLine, ParseHex, Spells;
  }

  // ----- Streams that are cut off --------------------------------------------------------------

  /** The length of the header of a chunk. */
  function HeaderLength(n: nat): (k: nat) {
    |HexPrint(n)| + |CRLF|
  }

  /** Position `k` of the written chunks is not before the data of some chunk nor after it. */
  predicate InData(writes: seq<string>, k: nat) {
    if writes == [] then false
    else if k < |Chunk(writes[0])| then
      HeaderLength(|writes[0]|) <= k <= HeaderLength(|writes[0]|) + |writes[0]|
    else InData(writes[1..], k - |Chunk(writes[0])|)
  }

  /** A header that is cut off is not a line. */
  lemma {:induction false} CutHeader(n: nat, after: string, k: nat)
    requires n < TWO_TO_THE_64 && k < HeaderLength(n)
    ensures k <= |HexPrint(n) + CRLF + after|
    ensures Decode(0, (HexPrint(n) + CRLF + after)[..k]).error == UnexpectedEOF
  {
    PrintFits(n);
    var text := HexPrint(n);
    var cut := (text + CRLF + after)[..k];
    assert forall i :: 0 <= i < k ==> cut[i] == (text + "\r")[i];
  }

  lemma {:induction false} CutData(n: nat, data: string, k: nat)
    requires 0 < n == |data| < TWO_TO_THE_64 && k <= n + 1
    ensures var cut := HexPrint(n) + CRLF + (data + CRLF)[..k];
            Decode(0, cut).error == if k <= n then EOF else UnexpectedEOF
  {
    var part := (data + CRLF)[..k];
    DecodesHeader(n, part);
  }

  /** One chunk that is cut off. */
  lemma {:induction false} CutChunk(data: string, after: string, k: nat)
    requires |data| < TWO_TO_THE_64 && k < |Chunk(data)|
    ensures var n := |data|;
            Decode(0, (Chunk(data) + after)[..k]).error == EOF <==> HeaderLength(n) <= k <= HeaderLength(n) + n
  {
    hide Decode, HexPrint;
    var n, header := |data|, HexPrint(|data|) + CRLF;
    var whole := Chunk(data) + after;
    if k < |header| {
      assert whole == HexPrint(n) + CRLF + (data + CRLF + after);
      CutHeader(n, data + CRLF + after, k);
    } else {
      CutData(n, data, k - |header|);
      assert whole[..k] == header + (data + CRLF)[..k - |header|];
    }
  }

  lemma {:induction false} CutLast(k: nat)
    requires k < |LAST_CHUNK|
    ensures Decode(0, LAST_CHUNK[..k]).error == UnexpectedEOF
  {
    assert HexPrint(0) == "0" && LAST_CHUNK == HexPrint(0) + CRLF + "";
    CutHeader(0, "", k);
  }

  /** A stream that is cut off anywhere reads as a proper end if and only if the cut is in the data of
      a chunk or just before or after it; everywhere else the cut is reported as an error. */
  lemma {:induction false} CutIsUnnoticedIff(writes: seq<string>, k: nat)
    requires forall i :: 0 <= i < |writes| ==> |writes[i]| < TWO_TO_THE_64
    requires k < |Chunks(writes) + LAST_CHUNK|
    ensures Decode(0, (Chunks(writes) + LAST_CHUNK)[..k]).error == EOF <==> InData(writes, k)
    decreases |writes|
  {
    hide Decode, Chunk, HexPrint;
    if writes == [] {
      CutLast(k);
      assert Chunks(writes) + LAST_CHUNK == LAST_CHUNK;
    } else {
      var first, rest := Chunk(writes[0]), Chunks(writes[1..]) + LAST_CHUNK;
      FirstChunk(writes, LAST_CHUNK);
      hide Chunks;
      if k < |first| {
        CutChunk(writes[0], rest, k);
      } else {
        CutIsUnnoticedIff(writes[1..], k - |first|);
        DecodesChunk(writes[0], rest[..k - |first|]);
        assert (first + rest)[..k] == first + rest[..k - |first|];
      }
    }
  }

  // ----- Writer and reader together ------------------------------------------------------------

  lemma {:induction false} OneMoreChunk(writes: seq<string>, i: nat)
    requires i < |writes|
    ensures Chunks(writes[..i + 1]) == Chunks(writes[..i]) + Chunk(writes[i])
  {
    hide Chunk;
    if i == 0 {
      assert writes[..1] == [writes[0]] && [writes[0]][1..] == [];
    } else {
      OneMoreChunk(writes[1..], i - 1);
      assert writes[..i + 1][1..] == writes[1..][..i] && writes[..i][1..] == writes[1..][..i - 1];
    }
  }

  /** Writes each piece, and closes. */
  method WriteAll(writes: seq<string>) returns (wire: string)
    ensures wire == Chunks(writes) + LAST_CHUNK
  {
    hide Chunks, Chunk;
    var writer := new ChunkedWriter();
    NoChunks();
    assert writes[..0] == [];
    for i := 0 to |writes|
      invariant writer.wire == Chunks(writes[..i])
      modifies writer
    {
      OneMoreChunk(writes, i);
      writer.Write(writes[i]);
    }
    assert writes[..|writes|] == writes;
    writer.Close();
    wire := writer.wire;
  }

  lemma {:induction false} NoChunks()
    ensures Chunks([]) == ""
  {
  }

  /** What is written to a stream that goes on with `tail` is read back whole, with buffers of any sizes,
      and `tail` is left. */
  method Transfer(writes: seq<string>, tail: string) returns (data: string, error: ReadError, rest: string)
    requires forall i :: 0 <= i < |writes| ==> |writes[i]| < TWO_TO_THE_64
    ensures data == Concat(writes) && error == EOF && rest == tail
  {
    hide Decode, Chunks, Concat;
    var wire := WriteAll(writes);
    RoundTrip(writes, tail);
    assert wire + tail == Chunks(writes) + (LAST_CHUNK + tail);
    var reader := new ChunkedReader(wire + tail);
    data, error := ReadAll(reader);
    rest := reader.stream;
  }
}
