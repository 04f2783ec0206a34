/** Bytes, big-endian integers and the buffer that every codec appends to or consumes. */
module ByteBuffers {
  type byte = x: int | 0 <= x < 256
  type Bytes = seq<byte>

  const U16_LIMIT := 0x1_0000
  const U32_LIMIT := 0x1_0000_0000

  datatype Option<+T> = None | Some(value: T)

  /** What a reader returned together with the bytes it left unread. */
  datatype Parsed<+T> = Parsed(value: T, rest: Bytes)

  function Repeat(v: byte, n: nat): Bytes {
    seq(n, _ => v)
  }

  /** The weight of a flag bit in a byte of flags. */
  function Flag(b: bool, weight: byte): byte {
    if b then weight else 0
  }

  // A single byte read past the end leaves the destination variable at zero.
  function TakeU8(b: Bytes): Parsed<byte> {
    if b == [] then Parsed(0, []) else Parsed(b[0], b[1..])
  }

  // A two-byte read from a shorter buffer consumes it and yields zero.
  function TakeU16(b: Bytes): Parsed<nat> {
    if |b| < 2 then Parsed(0, []) else Parsed(b[0] as nat * 256 + b[1], b[2..])
  }

  function TakeU32(b: Bytes): Parsed<nat> {
    if |b| < 4 then Parsed(0, [])
    else Parsed(((b[0] as nat * 256 + b[1]) * 256 + b[2]) * 256 + b[3], b[4..])
  }

  // Reading into a fresh slice of n bytes: what is missing stays zero.
  function TakeBytes(b: Bytes, n: nat): Parsed<Bytes> {
    if n <= |b| then Parsed(b[..n], b[n..]) else Parsed(b + Repeat(0, n - |b|), [])
  }

  function Skip(b: Bytes, n: nat): Bytes {
    if n <= |b| then b[n..] else []
  }

  function U16(v: nat): Bytes
    requires v < U16_LIMIT
  {
    [v / 256, v % 256]
  }

  function U32(v: nat): Bytes
    requires v < U32_LIMIT
  {
    [v / 0x100_0000, v / 0x1_0000 % 256, v / 256 % 256, v % 256]
  }

  lemma U16RoundTrip(v: nat, rest: Bytes)
    requires v < U16_LIMIT
    ensures TakeU16(U16(v) + rest) == Parsed(v, rest)
  {
    assert (U16(v) + rest)[2..] == rest;
  }

  lemma U32RoundTrip(v: nat, rest: Bytes)
    requires v < U32_LIMIT
    ensures TakeU32(U32(v) + rest) == Parsed(v, rest)
  {
    assert (U32(v) + rest)[4..] == rest;
    assert v / 0x100_0000 == v / 256 / 256 / 256 && v / 0x1_0000 == v / 256 / 256;
  }

  lemma TakeBytesPrefix(b: Bytes, rest: Bytes)
    ensures TakeBytes(b + rest, |b|) == Parsed(b, rest)
    ensures Skip(b + rest, |b|) == rest
  {
    assert (b + rest)[..|b|] == b && (b + rest)[|b|..] == rest;
  }

  class Buffer {
    var data: Bytes

    constructor (data: Bytes)
      ensures this.data == data
    {
      this.data := data;
    }

    method WriteByte(v: byte)
      modifies this
      ensures data == old(data) + [v]
    {
      data := data + [v];
    }

    method Write(b: Bytes)
      modifies this
      ensures data == old(data) + b
    {
      data := data + b;
    }

    method ReadU8() returns (v: byte)
      modifies this
      ensures Parsed(v, data) == TakeU8(old(data))
    {
      if data == [] {
        v := 0;
      } else {
        v := data[0];
        data := data[1..];
      }
    }

    method ReadU16() returns (v: nat)
      modifies this
      ensures Parsed(v, data) == TakeU16(old(data))
    {
      if |data| < 2 {
        v, data := 0, [];
      } else {
        v := data[0] as nat * 256 + data[1];
        data := data[2..];
      }
    }

    method ReadU32() returns (v: nat)
      modifies this
      ensures Parsed(v, data) == TakeU32(old(data))
    {
      if |data| < 4 {
        v, data := 0, [];
      } else {
        v := ((data[0] as nat * 256 + data[1]) * 256 + data[2]) * 256 + data[3];
        data := data[4..];
      }
    }

    method Read(n: nat) returns (b: Bytes)
      modifies this
      ensures Parsed(b, data) == TakeBytes(old(data), n)
    {
      if n <= |data| {
        b := data[..n];
        data := data[n..];
      } else {
        b := data + Repeat(0, n - |data|);
        data := [];
      }
    }

    method Next(n: nat)
      modifies this
      ensures data == Skip(old(data), n)
    {
      data := if n <= |data| then data[n..] else [];
    }
  }
}
