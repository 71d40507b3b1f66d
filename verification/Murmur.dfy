/** The murmur3 digests of external/murmur3: what `Write` and `Sum` do incrementally against the sums
    of all the data at once. */
module Murmur {

  type Byte = bv8

  const C1_32: bv32 := 0xcc9e2d51
  const C2_32: bv32 := 0x1b873593
  const C1_128: bv64 := 0x87c37b91114253d5
  const C2_128: bv64 := 0x4cf5ad432745937f

  /** The running hash: of the 32-bit digest, or the two parts of the 128-bit one. */
  datatype Hash = Hash32(h: bv32) | Hash128(h1: bv64, h2: bv64) {
    function Size(): (r: nat) {
      if Hash32? then 4 else 16
    }
  }

  const ZERO_32 := Hash32(0)
  const ZERO_128 := Hash128(0, 0)

  // ----- Words ---------------------------------------------------------------------------------

  /** Arithmetic on words wraps around. */
  function Mul32(a: bv32, b: bv32): (r: bv32) { a * b }
  function Add32(a: bv32, b: bv32): (r: bv32) { a + b }
  function Xor32(a: bv32, b: bv32): (r: bv32) { a ^ b }
  function Shr32(a: bv32, n: nat): (r: bv32) requires n < 32 { a >> n }
  function Rotl32(a: bv32, n: nat): (r: bv32) requires n < 32 { (a << n) | (a >> (32 - n)) }
  function Byte32(b: Byte, n: nat): (r: bv32) requires n < 32 { (b as bv32) << n }

  function Mul64(a: bv64, b: bv64): (r: bv64) { a * b }
  function Add64(a: bv64, b: bv64): (r: bv64) { a + b }
  function Xor64(a: bv64, b: bv64): (r: bv64) { a ^ b }
  function Shr64(a: bv64, n: nat): (r: bv64) requires n < 64 { a >> n }
  function Rotl64(a: bv64, n: nat): (r: bv64) requires n < 64 { (a << n) | (a >> (64 - n)) }
  function Byte64(b: Byte, n: nat): (r: bv64) requires n < 64 { (b as bv64) << n }

  function Length32(len: nat): (r: bv32) {
    (len % 0x1_0000_0000) as bv32
  }

  function Length64(len: nat): (r: bv64) {
    (len % 0x1_0000_0000_0000_0000) as bv64
  }

  // ----- Mixing --------------------------------------------------------------------------------

  /** The bytes from `lo` on as a word, the first in the lowest place. */
  function Word32(bytes: seq<Byte>, lo: nat): (r: bv32)
    requires lo <= |bytes| <= 4
    decreases |bytes| - lo
  {
    if lo == |bytes| then 0 else Xor32(Word32(bytes, lo + 1), Byte32(bytes[lo], 8 * lo))
  }

  function Word64(bytes: seq<Byte>, lo: nat): (r: bv64)
    requires lo <= |bytes| <= 8
    decreases |bytes| - lo
  {
    if lo == |bytes| then 0 else Xor64(Word64(bytes, lo + 1), Byte64(bytes[lo], 8 * lo))
  }

  function Scramble32(k: bv32): (r: bv32) {
    Mul32(Rotl32(Mul32(k, C1_32), 15), C2_32)
  }

  function Mix32(h: bv32, k: bv32): (r: bv32) {
    Add32(Mul32(Rotl32(Xor32(h, Scramble32(k)), 13), 5), 0xe6546b64)
  }

  function ScrambleLow(k: bv64): (r: bv64) {
    Mul64(Rotl64(Mul64(k, C1_128), 31), C2_128)
  }

  function ScrambleHigh(k: bv64): (r: bv64) {
    Mul64(Rotl64(Mul64(k, C2_128), 33), C1_128)
  }

  function MixLow(h1: bv64, h2: bv64, k1: bv64): (r: bv64) {
    Add64(Mul64(Add64(Rotl64(Xor64(h1, ScrambleLow(k1)), 27), h2), 5), 0x52dce729)
  }

  function MixHigh(h1: bv64, h2: bv64, k2: bv64): (r: bv64) {
    Add64(Mul64(Add64(Rotl64(Xor64(h2, ScrambleHigh(k2)), 31), h1), 5), 0x38495ab5)
  }

  function MixBlock(h: Hash, block: seq<Byte>): (r: Hash)
    requires |block| == h.Size()
    ensures r.Size() == h.Size()
  {
    match h
    case Hash32(h1) => Hash32(Mix32(h1, Word32(block, 0)))
    case Hash128(h1, h2) =>
      var low := MixLow(h1, h2, Word64(block[..8], 0));
      Hash128(low, MixHigh(low, h2, Word64(block[8..], 0)))
  }

  /** All whole blocks of the data. */
  function MixAll(h: Hash, data: seq<Byte>): (r: Hash)
    ensures r.Size() == h.Size()
    decreases |data|
  {
    if |data| < h.Size() then h else MixAll(MixBlock(h, data[..h.Size()]), data[h.Size()..])
  }

  /** What the whole blocks leave over. */
  function Tail(size: nat, data: seq<Byte>): (r: seq<Byte>)
    requires size > 0
    ensures |r| < size && |r| <= |data|
    decreases |data|
  {
    if |data| < size then data else Tail(size, data[size..])
  }

  // ----- Finishing -----------------------------------------------------------------------------

  function Finish32(h: bv32, tail: seq<Byte>, len: nat): (r: bv32)
    requires |tail| < 4
  {
    var mixed := if |tail| == 0 then h else Xor32(h, Scramble32(Word32(tail, 0)));
    Final32(Xor32(mixed, Length32(len)))
  }

  function Final32(h: bv32): (r: bv32) {
    var a := Mul32(Xor32(h, Shr32(h, 16)), 0x85ebca6b);
    var b := Mul32(Xor32(a, Shr32(a, 13)), 0xc2b2ae35);
    Xor32(b, Shr32(b, 16))
  }

  function Final64(k: bv64): (r: bv64) {
    var a := Mul64(Xor64(k, Shr64(k, 33)), 0xff51afd7ed558ccd);
    var b := Mul64(Xor64(a, Shr64(a, 33)), 0xc4ceb9fe1a85ec53);
    Xor64(b, Shr64(b, 33))
  }

  function Finish128(h1: bv64, h2: bv64, tail: seq<Byte>, len: nat): (r: (bv64, bv64))
    requires |tail| < 16
  {
    var low := if |tail| == 0 then h1
               else Xor64(h1, ScrambleLow(Word64(if |tail| <= 8 then tail else tail[..8], 0)));
    var high := if |tail| <= 8 then h2 else Xor64(h2, ScrambleHigh(Word64(tail[8..], 0)));
    var a1 := Add64(Xor64(low, Length64(len)), Xor64(high, Length64(len)));
    var a2 := Add64(Xor64(high, Length64(len)), a1);
    var b1 := Add64(Final64(a1), Final64(a2));
    (b1, Add64(Final64(a2), b1))
  }

  /** The sums of all the data. */
  function Sum32Of(data: seq<Byte>): (r: bv32) {
    Finish32(MixAll(ZERO_32, data).h, Tail(4, data), |data|)
  }

  function Sum128Of(data: seq<Byte>): (r: (bv64, bv64)) {
    var h := MixAll(ZERO_128, data);
    Finish128(h.h1, h.h2, Tail(16, data), |data|)
  }

  // ----- Cutting up data -----------------------------------------------------------------------

  /** Mixing data in two pieces, where the second begins with what the first left over. */
  lemma {:induction false} MixConcat(h: Hash, a: seq<Byte>, b: seq<Byte>)
    ensures MixAll(h, a + b) == MixAll(MixAll(h, a), Tail(h.Size(), a) + b)
    ensures Tail(h.Size(), a + b) == Tail(h.Size(), Tail(h.Size(), a) + b)
    decreases |a|
  {
    var size := h.Size();
    if |a| >= size {
      assert (a + b)[..size] == a[..size] && (a + b)[size..] == a[size..] + b;
      MixConcat(MixBlock(h, a[..size]), a[size..], b);
    }
  }

  /** One block at the front. */
  lemma {:induction false} MixFront(h: Hash, block: seq<Byte>, rest: seq<Byte>)
    requires |block| == h.Size()
    ensures MixAll(h, block + rest) == MixAll(MixBlock(h, block), rest)
    ensures Tail(h.Size(), block + rest) == Tail(h.Size(), rest)
  {
    assert (block + rest)[..h.Size()] == block && (block + rest)[h.Size()..] == rest;
  }

  // ----- The digests ---------------------------------------------------------------------------

  method CopyTo(a: array<Byte>, at: nat, s: seq<Byte>)
    requires at + |s| <= a.Length
    modifies a
    ensures a[..at] == old(a[..at]) && a[at..at + |s|] == s
  {
    for i := 0 to |s|
      invariant a[..at] == old(a[..at]) && a[at..at + i] == s[..i]
    {
      a[at + i] := s[i];
    }
  }

  /** One block of the 32-bit digest. */
  method Round32(h: bv32, k: bv32) returns (h1: bv32)
    ensures h1 == Mix32(h, k)
  {
    hide Mul32, Add32, Xor32, Rotl32;
    var k1 := Mul32(k, C1_32);
    k1 := Rotl32(k1, 15);
    k1 := Mul32(k1, C2_32);
    h1 := Xor32(h, k1);
    h1 := Rotl32(h1, 13);
    h1 := Add32(Mul32(h1, 5), 0xe6546b64);
  }

  /** One block of the 128-bit digest. */
  method Round128(a1: bv64, a2: bv64, t1: bv64, t2: bv64) returns (h1: bv64, h2: bv64)
    ensures h1 == MixLow(a1, a2, t1) && h2 == MixHigh(h1, a2, t2)
  {
    hide Mul64, Add64, Xor64, Rotl64;
    var k1, k2 := t1, t2;
    k1 := Mul64(k1, C1_128);
    k1 := Rotl64(k1, 31);
    k1 := Mul64(k1, C2_128);
    h1 := Xor64(a1, k1);
    h1 := Rotl64(h1, 27);
    h1 := Add64(h1, a2);
    h1 := Add64(Mul64(h1, 5), 0x52dce729);
    k2 := Mul64(k2, C2_128);
    k2 := Rotl64(k2, 33);
    k2 := Mul64(k2, C1_128);
    h2 := Xor64(a2, k2);
    h2 := Rotl64(h2, 31);
    h2 := Add64(h2, h1);
    h2 := Add64(Mul64(h2, 5), 0x38495ab5);
  }

  /** The end of the 32-bit sum.  The cases of the tail fall through from the last byte down. */
  method Close32(h: bv32, tail: seq<Byte>, len: nat) returns (h1: bv32)
    requires |tail| < 4
    ensures h1 == Finish32(h, tail, len)
  {
    hide Mul32, Xor32, Rotl32, Shr32, Byte32, Length32;
    h1 := h;
    var k1: bv32 := 0;
    assert Word32(tail, |tail|) == k1;
    if |tail| >= 3 {
      k1 := Xor32(k1, Byte32(tail[2], 16));
      assert k1 == Word32(tail, 2);
    }
    if |tail| >= 2 {
      k1 := Xor32(k1, Byte32(tail[1], 8));
      assert k1 == Word32(tail, 1);
    }
    if |tail| >= 1 {
      k1 := Xor32(k1, Byte32(tail[0], 0));
      assert k1 == Word32(tail, 0);
      k1 := Mul32(k1, C1_32);
      k1 := Rotl32(k1, 15);
      k1 := Mul32(k1, C2_32);
      h1 := Xor32(h1, k1);
    }
    h1 := Xor32(h1, Length32(len));
    h1 := Xor32(h1, Shr32(h1, 16));
    h1 := Mul32(h1, 0x85ebca6b);
    h1 := Xor32(h1, Shr32(h1, 13));
    h1 := Mul32(h1, 0xc2b2ae35);
    h1 := Xor32(h1, Shr32(h1, 16));
  }

  method FMix64(k: bv64) returns (r: bv64)
    ensures r == Final64(k)
  {
    hide Mul64, Xor64, Shr64;
    r := Xor64(k, Shr64(k, 33));
    r := Mul64(r, 0xff51afd7ed558ccd);
    r := Xor64(r, Shr64(r, 33));
    r := Mul64(r, 0xc4ceb9fe1a85ec53);
    r := Xor64(r, Shr64(r, 33));
  }

  /** The bytes of a tail, from the last one down. */
  method TailWord(bytes: seq<Byte>) returns (k: bv64)
    requires |bytes| <= 8
    ensures k == Word64(bytes, 0)
  {
    hide Xor64, Byte64;
    k := 0;
    for i := |bytes| downto 0
      invariant k == Word64(bytes, i)
    {
      k := Xor64(k, Byte64(bytes[i], 8 * i));
    }
  }

  /** The end of the 128-bit sum. */
  method Close128(a1: bv64, a2: bv64, tail: seq<Byte>, len: nat) returns (h1: bv64, h2: bv64)
    requires |tail| < 16
    ensures (h1, h2) == Finish128(a1, a2, tail, len)
  {
    hide Mul64, Add64, Xor64, Rotl64, Final64, Word64, Length64;
    h1, h2 := a1, a2;
    if |tail| > 8 {
      var k2 := TailWord(tail[8..]);
      k2 := Mul64(k2, C2_128);
      k2 := Rotl64(k2, 33);
      k2 := Mul64(k2, C1_128);
      h2 := Xor64(h2, k2);
    }
    if |tail| > 0 {
      var k1 := TailWord(if |tail| <= 8 then tail else tail[..8]);
      k1 := Mul64(k1, C1_128);
      k1 := Rotl64(k1, 31);
      k1 := Mul64(k1, C2_128);
      h1 := Xor64(h1, k1);
    }
    h1 := Xor64(h1, Length64(len));
    h2 := Xor64(h2, Length64(len));
    h1 := Add64(h1, h2);
    h2 := Add64(h2, h1);
    h1 := FMix64(h1);
    h2 := FMix64(h2);
    h1 := Add64(h1, h2);
    h2 := Add64(h2, h1);
  }

  /** The 32-bit sum of all the data at once. */
  method Sum32(data: seq<Byte>) returns (h1: bv32)
    ensures h1 == Sum32Of(data)
  {
    hide Mix32, Word32, Finish32;
    h1 := 0;
    var nblocks := |data| / 4;
    var p, p1 := 0, 4 * nblocks;
    assert data[0..] == data;
    while p < p1
      invariant p % 4 == 0 && p <= p1
      invariant MixAll(Hash32(h1), data[p..]) == MixAll(ZERO_32, data)
      invariant Tail(4, data[p..]) == Tail(4, data)
    {
      var block := data[p..p + 4];
      MixFront(Hash32(h1), block, data[p + 4..]);
      assert data[p..] == block + data[p + 4..];
      var k1 := Word32(block, 0);
      h1 := Round32(h1, k1);
      p := p + 4;
    }
    h1 := Close32(h1, data[p1..], |data|);
  }

  /** A digest: the running hash, and the bytes still short of a block in a buffer of its own. */
  class Digest {
    const zero: Hash
    var hash: Hash
    var clen: nat
    const buf: array<Byte>
    var tailLen: nat               // the tail is the head of `buf`
    ghost var written: seq<Byte>

    constructor (wide: bool)
      ensures Valid() && written == [] && zero == (if wide then ZERO_128 else ZERO_32) && fresh(buf)
    {
      zero := if wide then ZERO_128 else ZERO_32;
      hash := if wide then ZERO_128 else ZERO_32;
      buf := new Byte[16](_ => 0);
      clen, tailLen, written := 0, 0, [];
    }

    /** The digest of what was written, however it was cut up. */
    ghost predicate Valid()
      reads this, buf
    {
      && buf.Length == 16 && tailLen < zero.Size() && clen == |written|
      && hash == MixAll(zero, written) && buf[..tailLen] == Tail(zero.Size(), written)
    }

    method Reset()
      requires buf.Length == 16
      modifies this
      ensures Valid() && written == []
    {
      clen, tailLen, hash, written := 0, 0, zero, [];
    }

    /** Digests as many blocks as possible and returns the rest. */
    method BMix(p: seq<Byte>) returns (tail: seq<Byte>)
      modifies this`hash
      ensures hash == MixAll(old(hash), p) && tail == Tail(old(hash).Size(), p)
    {
      hide Mix32, MixLow, MixHigh, Word32, Word64;
      var size := hash.Size();
      var nblocks := |p| / size;
      assert p[size * 0..] == p;
      for i := 0 to nblocks
        invariant hash.Size() == size
        invariant MixAll(hash, p[size * i..]) == MixAll(old(hash), p)
        invariant Tail(size, p[size * i..]) == Tail(size, p)
      {
        assert size * (i + 1) == size * i + size <= |p|;
        var block := p[size * i..size * i + size];
        MixFront(hash, block, p[size * (i + 1)..]);
        assert p[size * i..] == block + p[size * (i + 1)..];
        match hash
        case Hash32(h1) =>
          var h1' := Round32(h1, Word32(block, 0));
          hash := Hash32(h1');
        case Hash128(h1, h2) =>
          var h1', h2' := Round128(h1, h2, Word64(block[..8], 0), Word64(block[8..], 0));
          hash := Hash128(h1', h2');
      }
      tail := p[size * nblocks..];
    }

    /** Joins the tail with new data: digests the first block when there is more than one, and
        otherwise collects all in the buffer. */
    method Refill(p: seq<Byte>) returns (q: seq<Byte>)
      requires buf.Length == 16 && 0 < tailLen < hash.Size()
      modifies this`hash, buf
      ensures hash.Size() == old(hash).Size()
      ensures MixAll(hash, q) == MixAll(old(hash), old(buf[..tailLen]) + p)
      ensures Tail(hash.Size(), q) == Tail(hash.Size(), old(buf[..tailLen]) + p)
    {
      hide MixAll, Tail, MixBlock;
      ghost var tail := buf[..tailLen];
      var nfree := hash.Size() - tailLen;
      if nfree < |p| {
        CopyTo(buf, tailLen, p[..nfree]);
        var block := buf[..hash.Size()];
        assert block == tail + p[..nfree];
        assert tail + p == block + p[nfree..];
        MixFront(hash, block, p[nfree..]);
        MixOne(hash, block);
        var _ := BMix(block);
        return p[nfree..];
      }
      CopyTo(buf, tailLen, p);
      q := buf[..tailLen + |p|];
      assert q == tail + p;
    }

    method Write(p: seq<Byte>) returns (n: nat)
      requires Valid()
      modifies this, buf
      ensures Valid() && written == old(written) + p && n == |p|
    {
      hide MixAll, Tail;
      MixConcat(zero, written, p);
      n := |p|;
      clen := clen + n;
      var q := p;
      if tailLen > 0 {
        q := Refill(p);
      } else {
        assert buf[..0] + p == p;
      }
      TailShort(zero.Size(), q);
      var tail := BMix(q);
      CopyTo(buf, 0, tail);
      assert buf[0..|tail|] == buf[..|tail|];
      tailLen := |tail|;
      written := written + p;
    }

    /** The 32-bit sum is that of all the data written. */
    method Sum32() returns (h: bv32)
      requires Valid() && zero == ZERO_32
      ensures h == Sum32Of(written)
    {
      h := Close32(hash.h, buf[..tailLen], clen);
    }

    /** So is the 128-bit sum. */
    method Sum128() returns (h1: bv64, h2: bv64)
      requires Valid() && zero == ZERO_128
      ensures (h1, h2) == Sum128Of(written)
    {
      h1, h2 := Close128(hash.h1, hash.h2, buf[..tailLen], clen);
    }
  }

  lemma {:induction false} MixOne(h: Hash, block: seq<Byte>)
    requires |block| == h.Size()
    ensures MixAll(h, block) == MixBlock(h, block)
  {
    assert block[..h.Size()] == block && block[h.Size()..] == [];
  }

  lemma {:induction false} TailShort(size: nat, data: seq<Byte>)
    requires size > 0
    ensures |Tail(size, data)| < size
  {
  }

  /** The 128-bit sum of all the data at once. */
  method Sum128(data: seq<Byte>) returns (h1: bv64, h2: bv64)
    ensures (h1, h2) == Sum128Of(data)
  {
    var d := new Digest(true);
    var tail := d.BMix(data);
    h1, h2 := Close128(d.hash.h1, d.hash.h2, tail, |data|);
  }

  // ----- Tails ---------------------------------------------------------------------------------

  lemma {:induction false} Word32WithZero(bytes: seq<Byte>, lo: nat)
    requires lo <= |bytes| < 4
    ensures Word32(bytes + [0], lo) == Word32(bytes, lo)
    decreases |bytes| - lo
  {
    if lo == |bytes| {
      assert Word32(bytes + [0], lo + 1) == 0;
      assert Byte32(0, 8 * lo) == 0;
    } else {
      hide Xor32, Byte32;
      Word32WithZero(bytes, lo + 1);
    }
  }

  lemma {:induction false} Word64WithZero(bytes: seq<Byte>, lo: nat)
    requires lo <= |bytes| < 8
    ensures Word64(bytes + [0], lo) == Word64(bytes, lo)
    decreases |bytes| - lo
  {
    if lo == |bytes| {
      assert Word64(bytes + [0], lo + 1) == 0;
      assert Byte64(0, 8 * lo) == 0;
    } else {
      hide Xor64, Byte64;
      Word64WithZero(bytes, lo + 1);
    }
  }

  lemma {:induction false} ZeroScrambles()
    ensures Scramble32(0) == 0 && ScrambleLow(0) == 0 && ScrambleHigh(0) == 0
    ensures (forall h :: Xor32(h, 0) == h) && forall h :: Xor64(h, 0) == h
  {
    assert Mul32(0, C1_32) == 0 && Rotl32(0, 15) == 0 && Mul32(0, C2_32) == 0;
    assert Mul64(0, C1_128) == 0 && Rotl64(0, 31) == 0 && Mul64(0, C2_128) == 0 && Rotl64(0, 33) == 0;
  }

  /** A tail ends as if zeros came after it: only the length tells. */
  lemma {:induction false} ZerosDoNotMatter32(h: bv32, tail: seq<Byte>, len: nat)
    requires |tail| < 3
    ensures Finish32(h, tail + [0], len) == Finish32(h, tail, len)
  {
    ZeroScrambles();
    Word32WithZero(tail, 0);
    assert |tail| == 0 ==> Word32(tail, 0) == 0;
    hide Word32, Scramble32, Xor32, Final32;
  }

  lemma {:induction false} ZerosDoNotMatter128(h1: bv64, h2: bv64, tail: seq<Byte>, len: nat)
    requires |tail| < 15
    ensures Finish128(h1, h2, tail + [0], len) == Finish128(h1, h2, tail, len)
  {
    ZeroScrambles();
    var longer := tail + [0];
    if |tail| < 8 {
      Word64WithZero(tail, 0);
      assert |tail| == 0 ==> Word64(tail, 0) == 0;
    } else {
      Word64WithZero(tail[8..], 0);
      assert longer[..8] == tail[..8] && longer[8..] == tail[8..] + [0];
      assert |tail| == 8 ==> tail[..8] == tail && Word64(tail[8..], 0) == 0;
    }
    hide Word64, ScrambleLow, ScrambleHigh, Xor64, Add64, Final64, Length64;
  }

  // ----- Known sums ----------------------------------------------------------------------------

  lemma {:induction false} Length32OfShort(len: nat)
    requires len < 0x1_0000_0000
    ensures Length32(len) == len as bv32
  {
  }

  lemma {:induction false} Length64OfShort(len: nat)
    requires len < 0x1_0000_0000_0000_0000
    ensures Length64(len) == len as bv64
  {
  }

  /** The first block of "hello". */
  lemma {:induction false} FirstBlockOfHello()
    ensures Word32([0x68, 0x65, 0x6c, 0x6c], 0) == 0x6c6c6568 && Mix32(0, 0x6c6c6568) == 0xef13efcd
  {
    assert Mul32(0x6c6c6568, C1_32) == 0xd24f5de8;
    assert Rotl32(0xd24f5de8, 15) == 0xaef46927;
    assert Mul32(0xaef46927, C2_32) == 0xa0ae7465;
    assert Xor32(0x00000000, 0xa0ae7465) == 0xa0ae7465;
    assert Rotl32(0xa0ae7465, 13) == 0xce8cb415;
    assert Mul32(0xce8cb415, 0x00000005) == 0x08bf8469;
    assert Add32(0x08bf8469, 0xe6546b64) == 0xef13efcd;
  }

  lemma {:induction false} EndOfHello()
    ensures Word32([0x6f], 0) == 0x0000006f && Finish32(0xef13efcd, [0x6f], 5) == 0x248bfa47
  {
    var last: seq<Byte> := [0x6f];
    assert Byte32(last[0], 0) == 0x6f && Word32(last, 1) == 0 && Xor32(0, 0x6f) == 0x6f;
    Length32OfShort(5);
    hide Length32;
    assert Mul32(0x0000006f, C1_32) == 0xb895a61f;
    assert Rotl32(0xb895a61f, 15) == 0xd30fdc4a;
    assert Mul32(0xd30fdc4a, C2_32) == 0x73bcd07e;
    assert Xor32(0xef13efcd, 0x73bcd07e) == 0x9caf3fb3;
    assert Xor32(0x9caf3fb3, 0x00000005) == 0x9caf3fb6;
    assert Shr32(0x9caf3fb6, 16) == 0x00009caf;
    assert Xor32(0x9caf3fb6, 0x00009caf) == 0x9cafa319;
    assert Mul32(0x9cafa319, 0x85ebca6b) == 0xc90de573;
    assert Shr32(0xc90de573, 13) == 0x0006486f;
    assert Xor32(0xc90de573, 0x0006486f) == 0xc90bad1c;
    assert Mul32(0xc90bad1c, 0xc2b2ae35) == 0x248bdecc;
    assert Shr32(0x248bdecc, 16) == 0x0000248b;
    assert Xor32(0x248bdecc, 0x0000248b) == 0x248bfa47;
  }

  /** A sum of the tests of the package. */
  lemma {:induction false} SumOfHello()
    ensures Sum32Of([0x68, 0x65, 0x6c, 0x6c, 0x6f]) == 0x248bfa47
  {
    FirstBlockOfHello();
    EndOfHello();
    hide Mix32, Finish32, Word32;
    var data: seq<Byte> := [0x68, 0x65, 0x6c, 0x6c, 0x6f];
    assert data[..4] == [0x68, 0x65, 0x6c, 0x6c] && data[4..] == [0x6f];
  }

  lemma {:induction false} FirstWord()
    ensures Word64([0x31, 0x39, 0x20, 0x4a, 0x61, 0x6e, 0x20, 0x32], 0) == 0x32206e614a203931
  {
    var bytes: seq<Byte> := [0x31, 0x39, 0x20, 0x4a, 0x61, 0x6e, 0x20, 0x32];
    assert Word64(bytes, 8) == 0;
    assert Byte64(bytes[7], 56) == 0x3200000000000000 && Word64(bytes, 7) == 0x3200000000000000;
    assert Byte64(bytes[6], 48) == 0x0020000000000000 && Word64(bytes, 6) == 0x3220000000000000;
    assert Byte64(bytes[5], 40) == 0x00006e0000000000 && Word64(bytes, 5) == 0x32206e0000000000;
    assert Byte64(bytes[4], 32) == 0x0000006100000000 && Word64(bytes, 4) == 0x32206e6100000000;
    assert Byte64(bytes[3], 24) == 0x000000004a000000 && Word64(bytes, 3) == 0x32206e614a000000;
    assert Byte64(bytes[2], 16) == 0x0000000000200000 && Word64(bytes, 2) == 0x32206e614a200000;
    assert Byte64(bytes[1], 8) == 0x0000000000003900 && Word64(bytes, 1) == 0x32206e614a203900;
  }

  lemma {:induction false} SecondWord()
    ensures Word64([0x30, 0x33, 0x38, 0x20, 0x61, 0x74, 0x20, 0x33], 0) == 0x3320746120383330
  {
    var bytes: seq<Byte> := [0x30, 0x33, 0x38, 0x20, 0x61, 0x74, 0x20, 0x33];
    assert Word64(bytes, 8) == 0;
    assert Byte64(bytes[7], 56) == 0x3300000000000000 && Word64(bytes, 7) == 0x3300000000000000;
    assert Byte64(bytes[6], 48) == 0x0020000000000000 && Word64(bytes, 6) == 0x3320000000000000;
    assert Byte64(bytes[5], 40) == 0x0000740000000000 && Word64(bytes, 5) == 0x3320740000000000;
    assert Byte64(bytes[4], 32) == 0x0000006100000000 && Word64(bytes, 4) == 0x3320746100000000;
    assert Byte64(bytes[3], 24) == 0x0000000020000000 && Word64(bytes, 3) == 0x3320746120000000;
    assert Byte64(bytes[2], 16) == 0x0000000000380000 && Word64(bytes, 2) == 0x3320746120380000;
    assert Byte64(bytes[1], 8) == 0x0000000000003300 && Word64(bytes, 1) == 0x3320746120383300;
  }

  lemma {:induction false} ThirdWord()
    ensures Word64([0x3a, 0x31, 0x34, 0x3a, 0x30, 0x37, 0x20, 0x41], 0) == 0x412037303a34313a
  {
    var bytes: seq<Byte> := [0x3a, 0x31, 0x34, 0x3a, 0x30, 0x37, 0x20, 0x41];
    assert Word64(bytes, 8) == 0;
    assert Byte64(bytes[7], 56) == 0x4100000000000000 && Word64(bytes, 7) == 0x4100000000000000;
    assert Byte64(bytes[6], 48) == 0x0020000000000000 && Word64(bytes, 6) == 0x4120000000000000;
    assert Byte64(bytes[5], 40) == 0x0000370000000000 && Word64(bytes, 5) == 0x4120370000000000;
    assert Byte64(bytes[4], 32) == 0x0000003000000000 && Word64(bytes, 4) == 0x4120373000000000;
    assert Byte64(bytes[3], 24) == 0x000000003a000000 && Word64(bytes, 3) == 0x412037303a000000;
    assert Byte64(bytes[2], 16) == 0x0000000000340000 && Word64(bytes, 2) == 0x412037303a340000;
    assert Byte64(bytes[1], 8) == 0x0000000000003100 && Word64(bytes, 1) == 0x412037303a343100;
  }

  lemma {:induction false} FirstBlockOfDate()
    ensures MixLow(0, 0, 0x32206e614a203931) == 0x9b7d849fa2eb5298
    ensures MixHigh(0x9b7d849fa2eb5298, 0, 0x3320746120383330) == 0xf9c7d7f8b5e1e6dc
  {
    assert Mul64(0x32206e614a203931, C1_128) == 0x02d491d71efc78c5;
    assert Rotl64(0x02d491d71efc78c5, 31) == 0x8f7e3c62816a48eb;
    assert Mul64(0x8f7e3c62816a48eb, C2_128) == 0x338f7c70aff01d95;
    assert Xor64(0x0000000000000000, 0x338f7c70aff01d95) == 0x338f7c70aff01d95;
    assert Rotl64(0x338f7c70aff01d95, 27) == 0x857f80eca99c7be3;
    assert Add64(0x857f80eca99c7be3, 0x0000000000000000) == 0x857f80eca99c7be3;
    assert Mul64(0x857f80eca99c7be3, 0x0000000000000005) == 0x9b7d849f500e6b6f;
    assert Add64(0x9b7d849f500e6b6f, 0x0000000052dce729) == 0x9b7d849fa2eb5298;
    assert Mul64(0x3320746120383330, C2_128) == 0xd04096315d35f4d0;
    assert Rotl64(0xd04096315d35f4d0, 33) == 0xba6be9a1a0812c62;
    assert Mul64(0xba6be9a1a0812c62, C1_128) == 0x85fff9466021b38a;
    assert Xor64(0x0000000000000000, 0x85fff9466021b38a) == 0x85fff9466021b38a;
    assert Rotl64(0x85fff9466021b38a, 31) == 0x3010d9c542fffca3;
    assert Add64(0x3010d9c542fffca3, 0x9b7d849fa2eb5298) == 0xcb8e5e64e5eb4f3b;
    assert Mul64(0xcb8e5e64e5eb4f3b, 0x0000000000000005) == 0xf9c7d7f87d988c27;
    assert Add64(0xf9c7d7f87d988c27, 0x0000000038495ab5) == 0xf9c7d7f8b5e1e6dc;
  }

  lemma {:induction false} TailOfDate()
    ensures Xor64(0x9b7d849fa2eb5298, ScrambleLow(0x412037303a34313a)) == 0x3f4e5b62a504feaf
    ensures Xor64(0xf9c7d7f8b5e1e6dc, ScrambleHigh(0x000000000000004d)) == 0x639b0410d6dab3d5
  {
    assert Mul64(0x412037303a34313a, C1_128) == 0x3063c692e456c342;
    assert Rotl64(0x3063c692e456c342, 31) == 0x722b61a11831e349;
    assert Mul64(0x722b61a11831e349, C2_128) == 0xa433dffd07efac37;
    assert Xor64(0x9b7d849fa2eb5298, 0xa433dffd07efac37) == 0x3f4e5b62a504feaf;
    assert Mul64(0x000000000000004d, C2_128) == 0x25e51d32cfed5d33;
    assert Rotl64(0x25e51d32cfed5d33, 33) == 0x9fdaba664bca3a65;
    assert Mul64(0x9fdaba664bca3a65, C1_128) == 0x9a5cd3e8633b5509;
    assert Xor64(0xf9c7d7f8b5e1e6dc, 0x9a5cd3e8633b5509) == 0x639b0410d6dab3d5;
  }

  lemma {:induction false} FinalsOfDate()
    ensures Final64(0xa2e95f737bdfb282) == 0x0aecf07c6c3dad2d
    ensures Final64(0x0684638452ba664e) == 0xadb1690c4afa02cf
  {
    assert Shr64(0xa2e95f737bdfb282, 33) == 0x000000005174afb9;
    assert Xor64(0xa2e95f737bdfb282, 0x000000005174afb9) == 0xa2e95f732aab1d3b;
    assert Mul64(0xa2e95f732aab1d3b, 0xff51afd7ed558ccd) == 0x382de0fc1299ac3f;
    assert Shr64(0x382de0fc1299ac3f, 33) == 0x000000001c16f07e;
    assert Xor64(0x382de0fc1299ac3f, 0x000000001c16f07e) == 0x382de0fc0e8f5c41;
    assert Mul64(0x382de0fc0e8f5c41, 0xc4ceb9fe1a85ec53) == 0x0aecf07c694bd513;
    assert Shr64(0x0aecf07c694bd513, 33) == 0x000000000576783e;
    assert Xor64(0x0aecf07c694bd513, 0x000000000576783e) == 0x0aecf07c6c3dad2d;
    assert Shr64(0x0684638452ba664e, 33) == 0x00000000034231c2;
    assert Xor64(0x0684638452ba664e, 0x00000000034231c2) == 0x0684638451f8578c;
    assert Mul64(0x0684638451f8578c, 0xff51afd7ed558ccd) == 0xebf868df213aab1c;
    assert Shr64(0xebf868df213aab1c, 33) == 0x0000000075fc346f;
    assert Xor64(0xebf868df213aab1c, 0x0000000075fc346f) == 0xebf868df54c69f73;
    assert Mul64(0xebf868df54c69f73, 0xc4ceb9fe1a85ec53) == 0xadb1690c1c22b649;
    assert Shr64(0xadb1690c1c22b649, 33) == 0x0000000056d8b486;
    assert Xor64(0xadb1690c1c22b649, 0x0000000056d8b486) == 0xadb1690c4afa02cf;
  }

  lemma {:induction false} SumsOfDate()
    ensures var p, q := Xor64(0x3f4e5b62a504feaf, 25), Xor64(0x639b0410d6dab3d5, 25);
            Add64(p, q) == 0xa2e95f737bdfb282 && Add64(q, 0xa2e95f737bdfb282) == 0x0684638452ba664e
    ensures Add64(0x0aecf07c6c3dad2d, 0xadb1690c4afa02cf) == 0xb89e5988b737affc
    ensures Add64(0xadb1690c4afa02cf, 0xb89e5988b737affc) == 0x664fc2950231b2cb
  {
    assert Xor64(0x3f4e5b62a504feaf, 0x0000000000000019) == 0x3f4e5b62a504feb6;
    assert Xor64(0x639b0410d6dab3d5, 0x0000000000000019) == 0x639b0410d6dab3cc;
    assert Add64(0x3f4e5b62a504feb6, 0x639b0410d6dab3cc) == 0xa2e95f737bdfb282;
    assert Add64(0x639b0410d6dab3cc, 0xa2e95f737bdfb282) == 0x0684638452ba664e;
    assert Add64(0x0aecf07c6c3dad2d, 0xadb1690c4afa02cf) == 0xb89e5988b737affc;
    assert Add64(0xadb1690c4afa02cf, 0xb89e5988b737affc) == 0x664fc2950231b2cb;
  }

  lemma {:induction false} LastByteOfDate()
    ensures Word64([0x4d], 0) == 0x4d
  {
    var last: seq<Byte> := [0x4d];
    assert Byte64(last[0], 0) == 0x4d && Word64(last, 1) == 0 && Xor64(0, 0x4d) == 0x4d;
  }

  lemma {:induction false} EndOfDate(tail: seq<Byte>)
    requires tail == [0x3a, 0x31, 0x34, 0x3a, 0x30, 0x37, 0x20, 0x41, 0x4d]
    ensures Finish128(0x9b7d849fa2eb5298, 0xf9c7d7f8b5e1e6dc, tail, 25) == (0xb89e5988b737affc, 0x664fc2950231b2cb)
  {
    hide Xor64, Add64, Final64, Word64, Length64, ScrambleLow, ScrambleHigh;
    ThirdWord();
    TailOfDate();
    FinalsOfDate();
    SumsOfDate();
    LastByteOfDate();
    Length64OfShort(25);
    assert tail[..8] == [0x3a, 0x31, 0x34, 0x3a, 0x30, 0x37, 0x20, 0x41] && tail[8..] == [0x4d];
  }

  lemma {:induction false} BlockOfDate(block: seq<Byte>)
    requires block == [0x31, 0x39, 0x20, 0x4a, 0x61, 0x6e, 0x20, 0x32] +
                      [0x30, 0x33, 0x38, 0x20, 0x61, 0x74, 0x20, 0x33]
    ensures MixBlock(ZERO_128, block) == Hash128(0x9b7d849fa2eb5298, 0xf9c7d7f8b5e1e6dc)
  {
    hide MixLow, MixHigh, Word64;
    FirstWord();
    SecondWord();
    FirstBlockOfDate();
    assert block[..8] == [0x31, 0x39, 0x20, 0x4a, 0x61, 0x6e, 0x20, 0x32];
    assert block[8..] == [0x30, 0x33, 0x38, 0x20, 0x61, 0x74, 0x20, 0x33];
  }

  /** Another one, of "19 Jan 2038 at 3:14:07 AM": a block and nine more bytes. */
  lemma {:induction false} SumOfDate(block: seq<Byte>, tail: seq<Byte>)
    requires block == [0x31, 0x39, 0x20, 0x4a, 0x61, 0x6e, 0x20, 0x32] +
                      [0x30, 0x33, 0x38, 0x20, 0x61, 0x74, 0x20, 0x33]
    requires tail == [0x3a, 0x31, 0x34, 0x3a, 0x30, 0x37, 0x20, 0x41, 0x4d]
    ensures Sum128Of(block + tail) == (0xb89e5988b737affc, 0x664fc2950231b2cb)
  {
    hide MixBlock, Finish128;
    BlockOfDate(block);
    EndOfDate(tail);
    MixFront(ZERO_128, block, tail);
  }
}
