/** Packets: header, chunks, padding, checksum, encryption and session id scrambling. */
module Packets {
  import opened ByteBuffers

  const BLOCK := 16
  const MAX_CHUNK := 65536
  const PAD_BYTE: byte := 0xff
  const DEFAULT_CRYPTO_KEY: Bytes := [65, 100, 111, 98, 101, 32, 83, 121, 115, 116, 101, 109, 115, 32, 48, 50]

  // ------------------------------------------------------------- exclusive or

  function Xor(a: nat, b: nat): nat {
    if a == 0 && b == 0 then 0 else 2 * Xor(a / 2, b / 2) + (a + b) % 2
  }

  lemma XorHalves(a: nat, b: nat)
    ensures Xor(a, b) / 2 == Xor(a / 2, b / 2)
    ensures Xor(a, b) % 2 == (a + b) % 2
  {
    assert Xor(0, 0) == 0;
  }

  lemma SameHalves(x: nat, y: nat)
    requires x / 2 == y / 2 && x % 2 == y % 2
    ensures x == y
  {
  }

  lemma ParityOfSum(x: nat, a: nat, b: nat)
    requires x % 2 == a % 2
    ensures (x + b) % 2 == (a + b) % 2
  {
  }

  /** Three-way exclusive or, one bit and the rest. */
  lemma XorTwice(a: nat, b: nat, c: nat)
    ensures Xor(Xor(a, b), c) / 2 == Xor(Xor(a / 2, b / 2), c / 2)
    ensures Xor(Xor(a, b), c) % 2 == (a + b + c) % 2
  {
    hide Xor;
    XorHalves(a, b);
    XorHalves(Xor(a, b), c);
    ParityOfSum(Xor(a, b), a + b, c);
  }

  lemma {:induction false} XorCancels(a: nat, b: nat)
    ensures Xor(Xor(a, b), b) == a
  {
    if a != 0 || b != 0 {
      XorCancels(a / 2, b / 2);
      XorTwice(a, b, b);
      SameHalves(Xor(Xor(a, b), b), a);
    }
  }

  lemma {:induction false} XorSwaps(a: nat, b: nat, c: nat)
    ensures Xor(Xor(a, b), c) == Xor(Xor(a, c), b)
  {
    hide Xor;
    if a != 0 || b != 0 || c != 0 {
      XorSwaps(a / 2, b / 2, c / 2);
      XorTwice(a, b, c);
      XorTwice(a, c, b);
      assert a + b + c == a + c + b;
      SameHalves(Xor(Xor(a, b), c), Xor(Xor(a, c), b));
    }
  }

  function Pow2(n: nat): nat {
    if n == 0 then 1 else 2 * Pow2(n - 1)
  }

  lemma {:induction false} XorBelow(a: nat, b: nat, bits: nat)
    requires a < Pow2(bits) && b < Pow2(bits)
    ensures Xor(a, b) < Pow2(bits)
  {
    if bits > 0 && (a != 0 || b != 0) {
      XorBelow(a / 2, b / 2, bits - 1);
    }
  }

  lemma Pow2Word()
    ensures Pow2(32) == U32_LIMIT
  {
    assert Pow2(8) == 256;
    assert Pow2(16) == 65536;
    assert Pow2(24) == 65536 * 256;
  }

  function Bit(n: nat, i: nat): nat {
    if i == 0 then n % 2 else Bit(n / 2, i - 1)
  }

  /** Every bit of an exclusive or is the sum of the two bits modulo two. */
  lemma {:induction false} XorBit(a: nat, b: nat, i: nat)
    ensures Bit(Xor(a, b), i) == (Bit(a, i) + Bit(b, i)) % 2
  {
    hide Xor;
    XorHalves(a, b);
    if i > 0 {
      XorBit(a / 2, b / 2, i - 1);
    } else {
      ParityOfSum(a, a % 2, b);
      ParityOfSum(b, b % 2, a % 2);
    }
  }

  // ----------------------------------------------------------------- checksum

  function Words(b: Bytes): nat
    decreases |b|
  {
    if b == [] then 0
    else if |b| == 1 then b[0]
    else TakeU16(b).value + Words(b[2..])
  }

  /** One's complement of a sum whose carries are folded in twice. */
  function Folded(sum: nat): nat {
    var once := sum / U16_LIMIT + sum % U16_LIMIT;
    U16_LIMIT - 1 - (once + once / U16_LIMIT) % U16_LIMIT
  }

  /** The sum itself is kept in 32 bits. */
  function CheckSum(b: Bytes): nat {
    Folded(Words(b) % U32_LIMIT)
  }

  /** Folding keeps the sum modulo 65535, so that with its complement it is a multiple of that. */
  lemma FoldedCancels(sum: nat)
    requires sum < 0x1_0000_0000
    ensures (sum + Folded(sum)) % 65535 == 0 && Folded(sum) <= 65535
  {
    var high := sum / U16_LIMIT;
    var once := high + sum % U16_LIMIT;
    if once < U16_LIMIT {
      assert sum + Folded(sum) == 65535 * (high + 1);
    } else {
      assert sum + Folded(sum) == 65535 * (high + 2);
    }
  }

  lemma {:induction false} WordsBound(b: Bytes)
    ensures Words(b) <= 65535 * ((|b| + 1) / 2)
    decreases |b|
  {
    if |b| > 1 {
      WordsBound(b[2..]);
    }
  }

  /** The checksum makes the sum of the 16-bit words, itself included, a multiple of 65535. */
  lemma CheckSumCancels(b: Bytes)
    requires |b| <= 0x1_0000
    ensures (Words(b) + CheckSum(b)) % 65535 == 0
  {
    hide Words, Folded;
    WordsBound(b);
    FoldedCancels(Words(b));
  }

  lemma CheckSumBound(b: Bytes)
    ensures CheckSum(b) < U16_LIMIT
  {
  }

  method CalcCheckSum(buf: Bytes) returns (checkSum: nat)
    ensures checkSum == CheckSum(buf)
  {
    hide Words, Folded, TakeU8, TakeU16;
    var r := new Buffer(buf);
    var sum: nat := 0;
    while |r.data| > 0
      invariant fresh(r) && sum < U32_LIMIT
      invariant (sum + Words(r.data)) % U32_LIMIT == Words(buf) % U32_LIMIT
      decreases |r.data|
    {
      NextWord(r.data);
      ghost var words := Words(r.data);
      var v: nat;
      if |r.data| == 1 {
        v := r.ReadU8();
      } else {
        v := r.ReadU16();
      }
      SumOn(sum, v, Words(r.data), words);
      sum := (sum + v) % U32_LIMIT;
    }
    NoWords();
    checkSum := FoldSum(sum);
  }

  method FoldSum(sum: nat) returns (checkSum: nat)
    ensures checkSum == Folded(sum)
  {
    var folded := sum / U16_LIMIT + sum % U16_LIMIT;
    folded := folded + folded / U16_LIMIT;
    checkSum := U16_LIMIT - 1 - folded % U16_LIMIT;
  }

  lemma NextWord(b: Bytes)
    requires b != []
    ensures var p: Parsed<nat> := if |b| == 1 then TakeU8(b) else TakeU16(b);
      Words(b) == p.value + Words(p.rest) && |p.rest| < |b|
  {
    NoWords();
  }

  lemma NoWords()
    ensures Words([]) == 0
  {
  }

  lemma SumOn(sum: nat, v: nat, rest: nat, words: nat)
    requires words == v + rest
    ensures ((sum + v) % U32_LIMIT + rest) % U32_LIMIT == (sum + words) % U32_LIMIT
  {
  }

  // ------------------------------------------------------------------- header

  datatype Header = Header(timeCritical: bool, timeCriticalReverse: bool, timestamp: nat, echo: nat, mode: nat)

  predicate HeaderOk(h: Header) {
    h.timestamp < U16_LIMIT && h.echo < U16_LIMIT && h.mode < 4
  }

  function Stamp(v: nat): Bytes
    requires v < U16_LIMIT
  {
    if v > 0 then U16(v) else []
  }

  function HeaderBytes(h: Header): Bytes
    requires HeaderOk(h)
  {
    [Flag(h.timeCritical, 128) + Flag(h.timeCriticalReverse, 64) + Flag(h.timestamp > 0, 8)
      + Flag(h.echo > 0, 4) + h.mode]
    + (Stamp(h.timestamp) + Stamp(h.echo))
  }

  function TakeStamp(present: bool, b: Bytes): Parsed<nat> {
    if present then TakeU16(b) else Parsed(0, b)
  }

  function TakeHeader(b: Bytes): Parsed<Header> {
    var flags := TakeU8(b);
    var timestamp := TakeStamp(flags.value / 8 % 2 == 1, flags.rest);
    var echo := TakeStamp(flags.value / 4 % 2 == 1, timestamp.rest);
    Parsed(Header(flags.value / 128 == 1, flags.value / 64 % 2 == 1,
                  timestamp.value, echo.value, flags.value % 4), echo.rest)
  }

  lemma StampRoundTrip(v: nat, rest: Bytes)
    requires v < U16_LIMIT
    ensures TakeStamp(v > 0, Stamp(v) + rest) == Parsed(v, rest)
  {
    if v > 0 {
      U16RoundTrip(v, rest);
    } else {
      assert [] + rest == rest;
    }
  }

  /** An absent timestamp and the timestamp zero are the same thing on both sides. */
  lemma HeaderRoundTrip(h: Header, rest: Bytes)
    requires HeaderOk(h)
    ensures TakeHeader(HeaderBytes(h) + rest) == Parsed(h, rest)
  {
    hide Stamp, TakeStamp;
    var b := HeaderBytes(h) + rest;
    assert b[1..] == Stamp(h.timestamp) + (Stamp(h.echo) + rest);
    StampRoundTrip(h.timestamp, Stamp(h.echo) + rest);
    StampRoundTrip(h.echo, rest);
  }

  // ------------------------------------------------------------------- chunks

  datatype RawChunk = RawChunk(kind: byte, data: Bytes)

  /** The length field keeps only sixteen bits. */
  function ChunkBytes(c: RawChunk): Bytes {
    [c.kind] + (U16(|c.data| % U16_LIMIT) + c.data)
  }

  function AllChunkBytes(cs: seq<RawChunk>): Bytes {
    if cs == [] then [] else ChunkBytes(cs[0]) + AllChunkBytes(cs[1..])
  }

  /** A trailing piece that is too short for its own length field ends the list. */
  function TakeChunks(b: Bytes): seq<RawChunk>
    decreases |b|
  {
    if |b| <= 2 then []
    else
      var length := TakeU16(b[1..]);
      if |length.rest| < length.value then []
      else [RawChunk(b[0], length.rest[..length.value])] + TakeChunks(length.rest[length.value..])
  }

  predicate ChunksFit(cs: seq<RawChunk>) {
    forall i :: 0 <= i < |cs| ==> |cs[i].data| < MAX_CHUNK
  }

  /** Padding is never taken for a chunk. */
  lemma PaddingIsNoChunk(n: nat)
    requires n < BLOCK
    ensures TakeChunks(Repeat(PAD_BYTE, n)) == []
  {
    var b := Repeat(PAD_BYTE, n);
    if n > 2 {
      assert b[1..][0] == PAD_BYTE && b[1..][1] == PAD_BYTE;
    }
  }

  lemma TakeFirstChunk(c: RawChunk, rest: Bytes)
    requires |c.data| < MAX_CHUNK
    ensures TakeChunks(ChunkBytes(c) + rest) == [c] + TakeChunks(rest)
  {
    hide TakeU16;
    var b := ChunkBytes(c) + rest;
    assert b[1..] == U16(|c.data|) + (c.data + rest);
    U16RoundTrip(|c.data|, c.data + rest);
    assert (c.data + rest)[..|c.data|] == c.data && (c.data + rest)[|c.data|..] == rest;
  }

  lemma {:induction false} ChunksReadBack(cs: seq<RawChunk>, n: nat)
    requires ChunksFit(cs) && n < BLOCK
    ensures TakeChunks(AllChunkBytes(cs) + Repeat(PAD_BYTE, n)) == cs
  {
    var pad := Repeat(PAD_BYTE, n);
    if cs == [] {
      assert [] + pad == pad;
      PaddingIsNoChunk(n);
    } else {
      hide TakeChunks, ChunkBytes, Repeat;
      assert AllChunkBytes(cs) + pad == ChunkBytes(cs[0]) + (AllChunkBytes(cs[1..]) + pad);
      ChunksReadBack(cs[1..], n);
      TakeFirstChunk(cs[0], AllChunkBytes(cs[1..]) + pad);
    }
  }

  /** Whatever bytes arrive, no chunk that is read is longer than a length field can say. */
  lemma {:induction false} TakenFit(b: Bytes)
    ensures ChunksFit(TakeChunks(b))
    decreases |b|
  {
    if |b| > 2 {
      var length := TakeU16(b[1..]);
      if |length.rest| >= length.value {
        TakenFit(length.rest[length.value..]);
      }
    }
  }

  /** The chunk list is read back, and the padding left alone, exactly when every length fits its field. */
  lemma ChunksRoundTrip(cs: seq<RawChunk>, n: nat)
    requires n < BLOCK
    ensures TakeChunks(AllChunkBytes(cs) + Repeat(PAD_BYTE, n)) == cs <==> ChunksFit(cs)
  {
    hide TakeChunks, AllChunkBytes, Repeat;
    if ChunksFit(cs) {
      ChunksReadBack(cs, n);
    }
    TakenFit(AllChunkBytes(cs) + Repeat(PAD_BYTE, n));
  }

  // -------------------------------------------------------------------- packet

  /** AES in CBC mode with a zero vector, of which only these two laws are used. */
  datatype Cipher = Cipher(encrypt: (Bytes, Bytes) -> Bytes, decrypt: (Bytes, Bytes) -> Bytes)

  ghost predicate CipherOk(c: Cipher) {
    forall key: Bytes, text: Bytes :: |text| % BLOCK == 0 ==>
      |c.encrypt(key, text)| == |text| && c.decrypt(key, c.encrypt(key, text)) == text
  }

  function KeyFor(key: Option<Bytes>, sid: nat): Bytes {
    if key.None? || sid == 0 then DEFAULT_CRYPTO_KEY else key.value
  }

  function PadLength(n: nat): (p: nat)
    requires n > 0
    ensures p < BLOCK && (n + p) % BLOCK == 0
  {
    ((n - 1) / BLOCK + 1) * BLOCK - n
  }

  function Padded(body: Bytes): Bytes {
    body + Repeat(PAD_BYTE, PadLength(|body| + 2))
  }

  function Checked(padded: Bytes): Bytes {
    U16(CheckSum(padded)) + padded
  }

  function Scramble(sid: nat, crypt: Bytes): nat {
    Xor(Xor(sid, TakeU32(crypt).value), TakeU32(TakeU32(crypt).rest).value)
  }

  lemma WordBound(b: Bytes)
    ensures TakeU32(b).value < U32_LIMIT
  {
  }

  lemma ScrambleBound(sid: nat, crypt: Bytes)
    requires sid < U32_LIMIT
    ensures Scramble(sid, crypt) < U32_LIMIT
  {
    Pow2Word();
    WordBound(crypt);
    WordBound(TakeU32(crypt).rest);
    XorBelow(sid, TakeU32(crypt).value, 32);
    XorBelow(Xor(sid, TakeU32(crypt).value), TakeU32(TakeU32(crypt).rest).value, 32);
  }

  function Packed(cipher: Cipher, key: Option<Bytes>, sid: nat, body: Bytes): Bytes
    requires sid < U32_LIMIT
  {
    var crypt := cipher.encrypt(KeyFor(key, sid), Checked(Padded(body)));
    ScrambleBound(sid, crypt);
    U32(Scramble(sid, crypt)) + crypt
  }

  function Body(h: Header, cs: seq<RawChunk>): Bytes
    requires HeaderOk(h)
  {
    HeaderBytes(h) + AllChunkBytes(cs)
  }

  datatype Decoded =
    | Packet(sid: nat, header: Header, chunks: seq<RawChunk>)
    | BadCheckSum
    | Malformed  // the slice or the block cipher of the source would panic

  function Opened(cipher: Cipher, key: Option<Bytes>, datagram: Bytes): Decoded {
    if |datagram| < 4 || (|datagram| - 4) % BLOCK != 0 then Malformed
    else
      var scrambled := TakeU32(datagram);
      var sid := Scramble(scrambled.value, scrambled.rest);
      var clear := TakeU16(cipher.decrypt(KeyFor(key, sid), scrambled.rest));
      if clear.value != CheckSum(clear.rest) then BadCheckSum
      else
        var header := TakeHeader(clear.rest);
        Packet(sid, header.value, TakeChunks(header.rest))
  }

  lemma ScrambleCancels(sid: nat, crypt: Bytes)
    ensures Scramble(Scramble(sid, crypt), crypt) == sid
  {
    var a, b := TakeU32(crypt).value, TakeU32(TakeU32(crypt).rest).value;
    XorSwaps(Xor(sid, a), b, a);
    XorCancels(sid, a);
    XorCancels(sid, b);
  }

  /** The first word of a datagram is the session id, flipped where just one of the two words behind it has a bit. */
  lemma ScrambleBits(sid: nat, crypt: Bytes, i: nat)
    requires |crypt| >= 8
    ensures Bit(Scramble(sid, crypt), i) ==
      (Bit(sid, i) + Bit(TakeU32(crypt[..4]).value, i) + Bit(TakeU32(crypt[4..8]).value, i)) % 2
  {
    hide Xor, Bit;
    var first, second := TakeU32(crypt).value, TakeU32(TakeU32(crypt).rest).value;
    assert first == TakeU32(crypt[..4]).value && second == TakeU32(crypt[4..8]).value;
    XorBit(sid, first, i);
    XorBit(Xor(sid, first), second, i);
    ParityOfSum(Bit(Xor(sid, first), i), Bit(sid, i) + Bit(first, i), Bit(second, i));
  }

  /** Whatever keys either side has, a packet to session id zero is read as it was packed. */
  lemma StartupPackets(cipher: Cipher, key: Option<Bytes>, other: Option<Bytes>, h: Header, cs: seq<RawChunk>)
    requires CipherOk(cipher) && HeaderOk(h) && ChunksFit(cs)
    ensures Packed(cipher, key, 0, Body(h, cs)) == Packed(cipher, None, 0, Body(h, cs))
    ensures Opened(cipher, other, Packed(cipher, key, 0, Body(h, cs))) == Packet(0, h, cs)
  {
    hide Opened, Checked, Padded, Body, Scramble;
    PacketRoundTrip(cipher, other, 0, h, cs);
    ZeroPacked(cipher, key, other, Body(h, cs));
    ZeroPacked(cipher, key, None, Body(h, cs));
  }

  lemma ZeroPacked(cipher: Cipher, key: Option<Bytes>, other: Option<Bytes>, body: Bytes)
    ensures Packed(cipher, key, 0, body) == Packed(cipher, other, 0, body)
  {
    hide Checked, Padded, Scramble;
  }

  /** To any other session id a side with keys encrypts under its own, and one without under the default key. */
  lemma CipherText(cipher: Cipher, key: Option<Bytes>, sid: nat, body: Bytes)
    requires sid < U32_LIMIT
    ensures Packed(cipher, key, sid, body)[4..] ==
      cipher.encrypt(if key.Some? && sid != 0 then key.value else DEFAULT_CRYPTO_KEY, Checked(Padded(body)))
  {
    hide Checked, Padded, Scramble;
    var crypt := cipher.encrypt(KeyFor(key, sid), Checked(Padded(body)));
    ScrambleBound(sid, crypt);
    assert |U32(Scramble(sid, crypt))| == 4;
  }

  /** Whatever is accepted is whole blocks behind four bytes, and its words add up to a multiple of 65535. */
  lemma AcceptedSums(cipher: Cipher, key: Option<Bytes>, datagram: Bytes)
    requires Opened(cipher, key, datagram).Packet?
    ensures |datagram| >= 4 && (|datagram| - 4) % 16 == 0
    ensures var sid := Opened(cipher, key, datagram).sid;
      var clear := cipher.decrypt(KeyFor(key, sid), datagram[4..]);
      2 <= |clear| <= 0x1_0000 ==> Words(clear) % 65535 == 0
  {
    hide TakeHeader, TakeChunks, CheckSum, Scramble, KeyFor;
    var sid := Opened(cipher, key, datagram).sid;
    var clear := cipher.decrypt(KeyFor(key, sid), datagram[4..]);
    assert TakeU32(datagram).rest == datagram[4..];
    if 2 <= |clear| <= 0x1_0000 {
      CheckSumCancels(clear[2..]);
      assert Words(clear) == TakeU16(clear).value + Words(clear[2..]);
    }
  }

  lemma CheckedLength(body: Bytes)
    ensures |Checked(Padded(body))| % BLOCK == 0 && |Checked(Padded(body))| > 0
  {
  }

  /**
   * Unpacking a packet returns the session id, the header and exactly the chunks that were packed, if and
   * only if every chunk is shorter than 65536 bytes.
   */
  lemma PacketRoundTrip(cipher: Cipher, key: Option<Bytes>, sid: nat, h: Header, cs: seq<RawChunk>)
    requires CipherOk(cipher) && sid < U32_LIMIT && HeaderOk(h)
    ensures Opened(cipher, key, Packed(cipher, key, sid, Body(h, cs))) == Packet(sid, h, cs) <==> ChunksFit(cs)
  {
    hide Xor, CheckSum, TakeHeader, HeaderBytes, TakeChunks, AllChunkBytes, Repeat, Scramble, ChunksFit;
    var body := Body(h, cs);
    var clear := Checked(Padded(body));
    var crypt := cipher.encrypt(KeyFor(key, sid), clear);
    CheckedLength(body);
    ScrambleBound(sid, crypt);
    U32RoundTrip(Scramble(sid, crypt), crypt);
    ScrambleCancels(sid, crypt);
    CheckSumBound(Padded(body));
    U16RoundTrip(CheckSum(Padded(body)), Padded(body));
    var n := PadLength(|body| + 2);
    assert Padded(body) == HeaderBytes(h) + (AllChunkBytes(cs) + Repeat(PAD_BYTE, n));
    HeaderRoundTrip(h, AllChunkBytes(cs) + Repeat(PAD_BYTE, n));
    ChunksRoundTrip(cs, n);
  }

  // ------------------------------------------------------------------- methods

  lemma ZeroFields()
    ensures U32(0) + U16(0) == Repeat(0, 6)
  {
  }

  /** The header part of init. */
  method WriteHeader(w: Buffer, header: Header)
    requires HeaderOk(header)
    modifies w
    ensures w.data == old(w.data) + HeaderBytes(header)
  {
    hide U16;
    var flags := 0;
    if header.timeCritical {
      flags := flags + 128;
    }
    if header.timeCriticalReverse {
      flags := flags + 64;
    }
    if header.timestamp > 0 {
      flags := flags + 8;
    }
    if header.echo > 0 {
      flags := flags + 4;
    }
    flags := flags + header.mode;
    w.WriteByte(flags);
    if header.timestamp > 0 {
      w.Write(U16(header.timestamp));
    }
    if header.echo > 0 {
      w.Write(U16(header.echo));
    }
  }

  class OutPacket {
    const header: Header
    var buf: Bytes
    ghost var chunks: seq<RawChunk>

    ghost predicate Valid()
      reads this
    {
      HeaderOk(header) && buf == Repeat(0, 6) + Body(header, chunks)
    }

    constructor (header: Header)
      requires HeaderOk(header)
      ensures Valid() && this.header == header && chunks == []
    {
      hide U16, U32, Repeat, HeaderBytes;
      this.header := header;
      this.buf := [];
      this.chunks := [];
      new;
      var w := new Buffer([]);
      w.Write(U32(0));
      w.Write(U16(0));
      WriteHeader(w, header);
      buf := w.data;
      ZeroFields();
      assert Body(header, []) == HeaderBytes(header);
    }

    method AddChunk(kind: byte, data: Bytes)
      requires Valid()
      modifies this
      ensures Valid() && chunks == old(chunks) + [RawChunk(kind, data)]
    {
      AllChunkBytesSnoc(chunks, RawChunk(kind, data));
      buf := buf + [kind];
      buf := buf + U16(|data| % U16_LIMIT);
      buf := buf + data;
      chunks := chunks + [RawChunk(kind, data)];
    }

    method Pack(cipher: Cipher, sid: nat, key: Option<Bytes>) returns (datagram: Bytes)
      requires Valid() && sid < U32_LIMIT
      modifies this`buf
      ensures datagram == Packed(cipher, key, sid, Body(header, chunks))
    {
      hide CheckSum, Xor, HeaderBytes, AllChunkBytes, TakeU32, U32, KeyFor;
      ghost var body := Body(header, chunks);
      var encryptedLen := |buf| - 4;
      var paddingLen := PadLength(encryptedLen);
      ghost var start := buf;
      assert encryptedLen == |body| + 2;
      for i := 0 to paddingLen
        invariant buf == start + Repeat(PAD_BYTE, i)
      {
        buf := buf + [PAD_BYTE];
      }
      assert buf == Repeat(0, 6) + Padded(body);
      assert buf[6..] == Padded(body);
      var checkSum := CalcCheckSum(buf[6..]);
      CheckSumBound(buf[6..]);
      buf := buf[..4] + U16(checkSum) + buf[6..];
      assert buf[4..] == U16(checkSum) + Padded(body);
      var crypt := cipher.encrypt(KeyFor(key, sid), buf[4..]);
      ScrambleBound(sid, crypt);
      var readBuf := new Buffer(crypt);
      var first := readBuf.ReadU32();
      var second := readBuf.ReadU32();
      buf := U32(Xor(Xor(sid, first), second)) + crypt;
      datagram := buf;
    }
  }

  lemma {:induction false} AllChunkBytesSnoc(cs: seq<RawChunk>, c: RawChunk)
    ensures AllChunkBytes(cs + [c]) == AllChunkBytes(cs) + ChunkBytes(c)
  {
    if cs == [] {
      assert ([] + [c])[1..] == [] && ChunkBytes(c) + [] == ChunkBytes(c);
    } else {
      assert (cs + [c])[1..] == cs[1..] + [c];
      AllChunkBytesSnoc(cs[1..], c);
    }
  }

  method DecodePacket(cipher: Cipher, datagram: Bytes, key: Option<Bytes>) returns (d: Decoded)
    ensures d == Opened(cipher, key, datagram)
  {
    hide CheckSum, Xor, TakeHeader, TakeChunks, KeyFor;
    var r := new Buffer(datagram);
    var scrambled := r.ReadU32();
    var first := r.ReadU32();
    var second := r.ReadU32();
    var sid := Xor(Xor(scrambled, first), second);
    if |datagram| < 4 || (|datagram| - 4) % BLOCK != 0 {
      return Malformed;
    }
    r := new Buffer(cipher.decrypt(KeyFor(key, sid), datagram[4..]));
    var checkSum := r.ReadU16();
    var calculated := CalcCheckSum(r.data);
    if checkSum != calculated {
      return BadCheckSum;
    }
    var header := DecodeHeader(r);
    var chunks := DecodeChunks(r);
    d := Packet(sid, header, chunks);
  }

  method DecodeHeader(r: Buffer) returns (h: Header)
    modifies r
    ensures Parsed(h, r.data) == TakeHeader(old(r.data))
  {
    var flags := r.ReadU8();
    var timestamp, echo := 0, 0;
    if flags / 8 % 2 == 1 {
      timestamp := r.ReadU16();
    }
    if flags / 4 % 2 == 1 {
      echo := r.ReadU16();
    }
    h := Header(flags / 128 == 1, flags / 64 % 2 == 1, timestamp, echo, flags % 4);
  }

  /** The chunk loop of decode_packet; the chunks are handed on in this order. */
  method DecodeChunks(r: Buffer) returns (chunks: seq<RawChunk>)
    modifies r
    ensures chunks == TakeChunks(old(r.data))
  {
    chunks := [];
    while |r.data| > 2
      invariant chunks + TakeChunks(r.data) == TakeChunks(old(r.data))
      decreases |r.data|
    {
      ghost var before := r.data;
      var kind := r.ReadU8();
      var length := r.ReadU16();
      if |r.data| < length {
        assert TakeChunks(before) == [];
        break;
      }
      chunks := chunks + [RawChunk(kind, r.data[..length])];
      r.Next(length);
    }
  }
}
