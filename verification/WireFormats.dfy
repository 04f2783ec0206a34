/** What goes over the wire, byte by byte, where reading back what was written does not settle it. */
module WireFormats {
  import opened Amf
  import opened ByteBuffers
  import opened ChunkCodecs
  import opened Keying
  import opened NetStreams
  import opened Packets
  import opened Protocol
  import opened Vlus

  // ------------------------------------------------------------------- packets

  /** Two switches in the high bits, two presence bits, two bits of mode, and the timestamps high byte first. */
  lemma HeaderLayout(h: Header)
    requires HeaderOk(h)
    ensures var b := HeaderBytes(h);
      && b != [] && (b[0] >= 0x80 <==> h.timeCritical) && (b[0] / 0x40 % 2 == 1 <==> h.timeCriticalReverse)
      && b[0] / 0x10 % 4 == 0 && b[0] % 4 == h.mode
      && (b[0] / 8 % 2 == 1 <==> h.timestamp > 0) && (b[0] / 4 % 2 == 1 <==> h.echo > 0)
      && b[1..] == (if h.timestamp > 0 then [h.timestamp / 256, h.timestamp % 256] else [])
                   + (if h.echo > 0 then [h.echo / 256, h.echo % 256] else [])
  {
  }

  /** One byte of type, two bytes of length, high byte first, and the data. */
  lemma ChunkLayout(c: RawChunk)
    requires |c.data| < 0x1_0000
    ensures ChunkBytes(c) == [c.kind, |c.data| / 256, |c.data| % 256] + c.data
  {
    var n := |c.data|;
    var high: byte, low: byte := n / 256, n % 256;
    assert n % U16_LIMIT == n && U16(n) == [high, low];
    assert [c.kind] + ([high, low] + c.data) == [c.kind, high, low] + c.data;
  }

  /** Padding with 0xff fills the last block of sixteen bytes, two of checksum included, and starts no new one. */
  lemma PaddingLayout(body: Bytes)
    ensures var padded := Padded(body);
      && body <= padded && |padded| - |body| < 16 && (2 + |padded|) % 16 == 0
      && forall i :: |body| <= i < |padded| ==> padded[i] == 0xff
  {
  }

  lemma DefaultKeyText()
    ensures |DEFAULT_CRYPTO_KEY| == 16
    ensures forall i :: 0 <= i < 16 ==> DEFAULT_CRYPTO_KEY[i] == "Adobe Systems 02"[i] as int
  {
    var text := "Adobe Systems 02";
    forall i | 0 <= i < 16
      ensures DEFAULT_CRYPTO_KEY[i] == text[i] as int
    {
      assert i < 8 || i >= 8;
    }
  }

  /** Words are sixteen bits, high byte first; an odd byte at the end counts as it is. */
  lemma {:induction false} WordsLayout(b: Bytes, high: byte, low: byte)
    ensures Words([high, low] + b) == high * 256 + low + Words(b)
    ensures Words([low]) == low
  {
    assert ([high, low] + b)[2..] == b;
  }

  /** User data has type 0x10 and range acks have type 0x51; either end passes chunks of other types and flows. */
  lemma ChunkTypes(c: RawChunk, rest: seq<RawChunk>, flowid: nat)
    ensures FlowData([c] + rest, flowid) ==
      (if c.kind == 0x10 && TakeUserData(c.data).flowid == flowid then [TakeUserData(c.data)] else [])
      + FlowData(rest, flowid)
    ensures FlowAcks([c] + rest, flowid) ==
      (if c.kind == 0x51 && TakeRangeAck(c.data).flowid == flowid then [TakeRangeAck(c.data)] else [])
      + FlowAcks(rest, flowid)
  {
    hide TakeUserData, TakeRangeAck;
    assert ([c] + rest)[1..] == rest;
  }

  // ------------------------------------------------------------------- keying

  lemma TwoByteVlu(v: nat)
    requires 128 <= v < 256
    ensures Vlu(v) == [0x81, v - 128]
  {
    assert Digits(1, true) == [129] && Digits(v - 128, false) == [v - 128];
    assert Vlu(v) == Digits(1, true) + Digits(v - 128, false);
  }

  /** The chunks of a party: session id, the certificate's option 0x1d or the nonce's option 0x0d, public number. */
  lemma KeyingLayout(a: Party, cookie: Bytes)
    requires a.sid < U32_LIMIT && |cookie| < 128
    ensures var number := FixedWidth(PublicNumber(a.private));
      var nonce := [0x03, 0x1a, 0x00, 0x00, 0x02, 0x1e, 0x00, 0x81, 0x02, 0x0d, 0x02] + number;
      && ToResponder(a, cookie) ==
           U32(a.sid) + [|cookie|] + cookie + [0x81, 0x04, 0x81, 0x02, 0x1d, 0x02] + number
             + [0x81, 0x0b] + nonce + [0x58]
      && ToInitiator(a) == U32(a.sid) + [0x81, 0x0b] + nonce + [0x58]
  {
    hide FixedWidth, PublicNumber, U32;
    FixedWidthValue(PublicNumber(a.private));
    var number := FixedWidth(PublicNumber(a.private));
    TwoByteVlu(132);
    TwoByteVlu(139);
    assert Vlu(|cookie|) == [|cookie|];
    assert |CertOf(a.private)| == 132 && |NonceOf(a.private)| == 139;
    var nonce := NonceOf(a.private);
    assert ToResponder(a, cookie) == U32(a.sid) + ([|cookie| as byte] + cookie
      + ([0x81, 0x04] + ([0x81, 0x02, 0x1d, 0x02] + number) + ([0x81, 0x0b] + nonce + [0x58])));
  }

  // ---------------------------------------------------------------------- AMF

  /** Undefined is read as null, any byte but zero as true; markers that are not listed make the reader panic. */
  lemma AmfMarkers(rest: Bytes, v: byte, kind: byte)
    ensures TakeAmf([0x05] + rest) == Some(Parsed(Null, rest)) == TakeAmf([0x06] + rest)
    ensures TakeAmf([0x01, v] + rest) == Some(Parsed(Boolean(v != 0), rest))
    ensures kind !in {0x00, 0x01, 0x02, 0x03, 0x05, 0x06, 0x11} ==> TakeAmf([kind] + rest) == None
    ensures v != 0x0c ==> TakeAmf([0x11, v] + rest) == None
  {
    hide TakeObject, TakeNumber, TakeString, TakeByteArray;
    assert ([0x05] + rest)[1..] == rest && ([0x06] + rest)[1..] == rest;
    assert ([0x01, v] + rest)[1..] == [v] + rest && ([v] + rest)[1..] == rest;
    assert ([0x11, v] + rest)[1..] == [v] + rest;
  }

  /** The header of a byte array is its size, shifted by one bit over a set low bit. */
  lemma ByteArrayLayout(data: Bytes)
    requires |data| < 64
    ensures ArrayFits(data) && ByteArrayBytes(data) == [2 * |data| + 1] + data
  {
    assert Digits(2 * |data| + 1, false) == [2 * |data| + 1];
  }

  /** A call: type and four zero bytes, the name, the callback number zero, null, and the parameter. */
  lemma CommandLayout(name: Bytes, param: Bytes)
    requires |name| < 0x1_0000
    ensures CommandBytes(name, param) ==
      [0x14, 0, 0, 0, 0, 0x02, |name| / 256, |name| % 256] + name + [0x00, 0, 0, 0, 0, 0, 0, 0, 0, 0x05] + param
  {
  }

  // ----------------------------------------------------------- truncated input

  /** What is missing reads as zero: an integer's next digit, a word as a whole, the end of a string. */
  lemma ShortReads(d: byte, b: Bytes, n: nat)
    requires d >= 128 && |b| < n
    ensures TakeVlu([]) == Parsed(0, []) && TakeVlu([d]) == Parsed((d - 128) * 128, [])
    ensures TakeU8([]) == Parsed(0, []) && TakeU16([d]) == Parsed(0, [])
    ensures |b| < 4 ==> TakeU32(b) == Parsed(0, [])
    ensures var s := TakeBytes(b, n);
      && s.rest == [] && |s.value| == n && b <= s.value && forall i :: |b| <= i < n ==> s.value[i] == 0
  {
    assert [d][1..] == [];
    assert TakeDigits(d - 128, []) == Parsed((d - 128) * 128, []);
  }
}
