/** AMF values: what write_amf0 may emit and how read_amf0 takes it apart. */
module Amf {
  import opened ByteBuffers
  import opened Vlus

  type Double = b: Bytes | |b| == 8 witness [0, 0, 0, 0, 0, 0, 0, 0]

  const ZERO: Double := [0, 0, 0, 0, 0, 0, 0, 0]

  /** A number is its eight bytes; an object is a map, written in whatever order the map is walked. */
  datatype Value =
    | Null
    | Number(bits: Double)
    | Boolean(b: bool)
    | String(s: Bytes)
    | Object(fields: map<Bytes, Value>)
    | ByteArray(data: Bytes)

  const OBJECT_END: byte := 0x09
  const U29_MAX := 0x1FFF_FFFF

  // --------------------------------------------------------------------- u29

  function U29(v: nat): Bytes
    requires v <= U29_MAX
  {
    if v <= 0x1F_FFFF then Digits(v, false) else Digits(v / 256, true) + [v % 256]
  }

  /** The reader's loop at its i-th byte; the fourth byte counts whole. */
  function TakeU29From(acc: nat, i: nat, b: Bytes): Parsed<nat>
    requires i <= 4
    decreases 4 - i
  {
    if i == 4 then Parsed(acc, b)
    else
      var v := TakeU8(b);
      var next := if i < 3 then acc * 128 + v.value % 128 else acc * 256 + v.value;
      if v.value < 128 then Parsed(next, v.rest) else TakeU29From(next, i + 1, v.rest)
  }

  function TakeU29(b: Bytes): Parsed<nat> {
    TakeU29From(0, 0, b)
  }

  /** The values of this interval are written in three bytes and would need four. */
  predicate U29Survives(v: nat) {
    !(0x20_0000 <= v <= 0x3F_FFFF)
  }

  lemma FewDigits(v: nat, more: bool)
    requires v <= 0x1F_FFFF
    ensures var last: byte := if more then v % 128 + 128 else v % 128;
      Digits(v, more) ==
        if v < 128 then [last]
        else if v < 16384 then [v / 128 + 128, last]
        else [v / 16384 + 128, v / 128 % 128 + 128, last]
  {
    LowDigit(v, more);
    if v >= 128 {
      LowDigit(v / 128, true);
      if v >= 16384 {
        assert v / 128 / 128 == v / 16384 < 128;
      }
    }
  }

  lemma LowDigit(v: nat, more: bool)
    ensures v >= 128 ==> Digits(v, more) == Digits(v / 128, true) + [if more then v % 128 + 128 else v % 128]
  {
  }

  /** Continuation bytes, and the byte that ends the number. */
  lemma TakeMore(acc: nat, i: nat, d: byte, b: Bytes, rest: Bytes)
    requires i < 3 && d >= 128 && b == [d] + rest
    ensures TakeU29From(acc, i, b) == TakeU29From(acc * 128 + (d - 128), i + 1, rest)
  {
    assert b[1..] == rest;
  }

  lemma TakeLast(acc: nat, i: nat, d: byte, b: Bytes, rest: Bytes)
    requires i < 4 && (d < 128 || i == 3) && b == [d] + rest
    ensures TakeU29From(acc, i, b) == Parsed(if i < 3 then acc * 128 + d else acc * 256 + d, rest)
  {
    assert b[1..] == rest;
  }

  lemma TakeTwo(d0: byte, d1: byte, b: Bytes, rest: Bytes)
    requires d0 >= 128 && d1 >= 128 && b == [d0, d1] + rest
    ensures TakeU29(b) == TakeU29From((d0 - 128) * 128 + (d1 - 128), 2, rest)
  {
    hide TakeU29From;
    TakeMore(0, 0, d0, b, [d1] + rest);
    TakeMore(d0 - 128, 1, d1, [d1] + rest, rest);
  }

  lemma ShortU29(v: nat, rest: Bytes)
    requires v <= 0x1F_FFFF
    ensures TakeU29(U29(v) + rest) == Parsed(v, rest)
  {
    hide TakeU29From, Digits;
    FewDigits(v, false);
    var b := U29(v) + rest;
    if v < 128 {
      TakeLast(0, 0, v, b, rest);
    } else if v < 16384 {
      TakeMore(0, 0, v / 128 + 128, b, [v % 128] + rest);
      TakeLast(v / 128, 1, v % 128, [v % 128] + rest, rest);
    } else {
      TakeTwo(v / 16384 + 128, v / 128 % 128 + 128, b, [v % 128] + rest);
      TakeLast(v / 16384 * 128 + v / 128 % 128, 2, v % 128, [v % 128] + rest, rest);
      assert v / 128 / 128 == v / 16384;
    }
  }

  lemma LongU29(v: nat, rest: Bytes)
    requires 0x40_0000 <= v <= U29_MAX
    ensures TakeU29(U29(v) + rest) == Parsed(v, rest)
  {
    hide TakeU29From, Digits;
    var h := v / 256;
    FewDigits(h, true);
    var b := U29(v) + rest;
    assert h >= 16384 && h / 128 / 128 == h / 16384;
    var tail := [h % 128 + 128, v % 256] + rest;
    TakeTwo(h / 16384 + 128, h / 128 % 128 + 128, b, tail);
    TakeMore(h / 16384 * 128 + h / 128 % 128, 2, h % 128 + 128, tail, [v % 256] + rest);
    TakeLast(h, 3, v % 256, [v % 256] + rest, rest);
  }

  lemma GapU29(v: nat, rest: Bytes)
    requires 0x20_0000 <= v <= 0x3F_FFFF
    ensures TakeU29(U29(v) + rest).value / 2 != v / 2 && TakeU29(U29(v) + rest).value >= 0x10_0000
  {
    hide TakeU29From, Digits;
    var h := v / 256;
    FewDigits(h, true);
    var b := U29(v) + rest;
    var d: byte := v % 256;
    TakeTwo(h / 128 + 128, h % 128 + 128, b, [d] + rest);
    assert TakeU29(b) == TakeU29From(h, 2, [d] + rest);
    if d < 128 {
      TakeLast(h, 2, d, [d] + rest, rest);
    } else {
      TakeMore(h, 2, d, [d] + rest, rest);
      FourthByte(h * 128 + (d - 128), rest);
    }
  }

  lemma FourthByte(acc: nat, b: Bytes)
    ensures TakeU29From(acc, 3, b).value >= acc * 256
  {
    var v := TakeU8(b);
    assert TakeU29From(acc * 256 + v.value, 4, v.rest).value == acc * 256 + v.value;
  }

  /** Reading undoes writing exactly outside the interval that needs a fourth byte and gets three. */
  lemma U29RoundTrip(v: nat, rest: Bytes)
    requires v <= U29_MAX
    ensures TakeU29(U29(v) + rest) == Parsed(v, rest) <==> U29Survives(v)
  {
    hide TakeU29, U29;
    if v <= 0x1F_FFFF {
      ShortU29(v, rest);
    } else if v <= 0x3F_FFFF {
      GapU29(v, rest);
    } else {
      LongU29(v, rest);
    }
  }

  method WriteU29(w: Buffer, v: nat)
    requires v <= U29_MAX
    modifies w
    ensures w.data == old(w.data) + U29(v)
  {
    if v <= 0x1F_FFFF {
      InternalWriteU29(w, v, false);
    } else {
      InternalWriteU29(w, v / 256, true);
      w.WriteByte(v % 256);
    }
  }

  method InternalWriteU29(w: Buffer, v: nat, more: bool)
    modifies w
    ensures w.data == old(w.data) + Digits(v, more)
    decreases v
  {
    if v >= 128 {
      InternalWriteU29(w, v / 128, true);
      InternalWriteU29(w, v % 128, more);
      assert w.data == old(w.data) + (Digits(v / 128, true) + Digits(v % 128, more));
    } else {
      var v7bit := v;
      if more {
        v7bit := v7bit + 128;
      }
      w.WriteByte(v7bit);
    }
  }

  method ReadU29(r: Buffer) returns (value: nat)
    modifies r
    ensures Parsed(value, r.data) == TakeU29(old(r.data))
  {
    value := 0;
    ghost var goal := TakeU29(r.data);
    for i := 0 to 4
      invariant TakeU29From(value, i, r.data) == goal
    {
      var v := r.ReadU8();
      if i < 3 {
        value := value * 128 + v % 128;
      } else {
        value := value * 256 + v;
      }
      if v < 128 {
        return;
      }
    }
  }

  // ----------------------------------------------------------------- reading

  function TakeNumber(b: Bytes): Parsed<Double> {
    if |b| < 8 then Parsed(ZERO, []) else Parsed(b[..8], b[8..])
  }

  function TakeString(b: Bytes): Parsed<Bytes> {
    var length := TakeU16(b);
    TakeBytes(length.rest, length.value)
  }

  function TakeByteArray(b: Bytes): Parsed<Bytes> {
    var length := TakeU29(b);
    TakeBytes(length.rest, length.value / 2)
  }

  function TakeAmf3(b: Bytes): Option<Parsed<Value>> {
    var kind := TakeU8(b);
    if kind.value != 0x0c then None
    else
      var data := TakeByteArray(kind.rest);
      Some(Parsed(ByteArray(data.value), data.rest))
  }

  lemma U29Shrinks(acc: nat, i: nat, b: Bytes)
    requires i <= 4
    ensures |TakeU29From(acc, i, b).rest| <= |b|
    decreases 4 - i
  {
    if i < 4 {
      var v := TakeU8(b);
      U29Shrinks(if i < 3 then acc * 128 + v.value % 128 else acc * 256 + v.value, i + 1, v.rest);
    }
  }

  /** A value and the bytes behind it; None where the source panics. */
  function TakeAmf(b: Bytes): (r: Option<Parsed<Value>>)
    ensures r.Some? ==> |r.value.rest| <= |b|
    decreases |b|, 1
  {
    var kind := TakeU8(b);
    match kind.value
    case 0x00 =>
      var n := TakeNumber(kind.rest);
      Some(Parsed(Number(n.value), n.rest))
    case 0x01 =>
      var v := TakeU8(kind.rest);
      Some(Parsed(Boolean(v.value > 0), v.rest))
    case 0x02 =>
      var s := TakeString(kind.rest);
      Some(Parsed(String(s.value), s.rest))
    case 0x03 => TakeObject(kind.rest, map[])
    case 0x05 => Some(Parsed(Null, kind.rest))
    case 0x06 => Some(Parsed(Null, kind.rest))
    case 0x11 =>
      U29Shrinks(0, 0, TakeU8(kind.rest).rest);
      TakeAmf3(kind.rest)
    case _ => None
  }

  function TakeObject(b: Bytes, fields: map<Bytes, Value>): (r: Option<Parsed<Value>>)
    ensures r.Some? ==> |r.value.rest| <= |b| && r.value.value.Object?
    decreases |b|, 0
  {
    if b == [] then None
    else if b[0] == OBJECT_END then Some(Parsed(Object(fields), b[1..]))
    else
      var key := TakeString(b);
      if key.value == [] then Some(Parsed(Object(fields), Skip(key.rest, 1)))
      else
        var v := TakeAmf(key.rest);
        if v.None? then None else TakeObject(v.value.rest, fields[key.value := v.value.value])
  }

  method ReadString(r: Buffer) returns (s: Bytes)
    modifies r
    ensures Parsed(s, r.data) == TakeString(old(r.data))
  {
    var length := r.ReadU16();
    s := r.Read(length);
  }

  method ReadNumber(r: Buffer) returns (n: Double)
    modifies r
    ensures Parsed(n, r.data) == TakeNumber(old(r.data))
  {
    if |r.data| < 8 {
      n, r.data := ZERO, [];
    } else {
      n := r.data[..8];
      r.data := r.data[8..];
    }
  }

  method ReadAmf3(r: Buffer) returns (v: Option<Value>)
    modifies r
    ensures v.Some? <==> TakeAmf3(old(r.data)).Some?
    ensures v.Some? ==> Parsed(v.value, r.data) == TakeAmf3(old(r.data)).value
  {
    var kind := r.ReadU8();
    if kind != 0x0c {
      return None;
    }
    var length := ReadU29(r);
    var data := r.Read(length / 2);
    return Some(ByteArray(data));
  }

  method ReadAmf(r: Buffer) returns (v: Option<Value>)
    modifies r
    ensures v.Some? <==> TakeAmf(old(r.data)).Some?
    ensures v.Some? ==> Parsed(v.value, r.data) == TakeAmf(old(r.data)).value
    decreases |r.data|, 1
  {
    hide TakeObject, TakeAmf3, TakeString, TakeNumber;
    var kind := r.ReadU8();
    match kind
    case 0x00 =>
      var n := ReadNumber(r);
      v := Some(Number(n));
    case 0x01 =>
      var b := r.ReadU8();
      v := Some(Boolean(b > 0));
    case 0x02 =>
      var s := ReadString(r);
      v := Some(String(s));
    case 0x03 =>
      v := ReadObject(r);
    case 0x05 =>
      v := Some(Null);
    case 0x06 =>
      v := Some(Null);
    case 0x11 =>
      v := ReadAmf3(r);
    case _ =>
      v := None;
  }

  method ReadObject(r: Buffer) returns (v: Option<Value>)
    modifies r
    ensures v.Some? <==> TakeObject(old(r.data), map[]).Some?
    ensures v.Some? ==> Parsed(v.value, r.data) == TakeObject(old(r.data), map[]).value
    decreases |r.data|, 0
  {
    hide TakeAmf, TakeString;
    var fields: map<Bytes, Value> := map[];
    ghost var goal := TakeObject(r.data, fields);
    if r.data == [] {
      return None;
    }
    while r.data[0] != OBJECT_END
      invariant r.data != [] && TakeObject(r.data, fields) == goal
      decreases |r.data|
    {
      StringShrinks(r.data);
      var key := ReadString(r);
      if key == [] {
        break;
      }
      var value := ReadAmf(r);
      if value.None? {
        return None;
      }
      fields := fields[key := value.value];
      if r.data == [] {
        return None;
      }
    }
    r.Next(1);
    v := Some(Object(fields));
  }

  lemma StringShrinks(b: Bytes)
    requires b != []
    ensures |TakeString(b).rest| < |b|
  {
  }

  // ----------------------------------------------------------------- writing

  function StringBytes(s: Bytes): Bytes {
    U16(|s| % U16_LIMIT) + s
  }

  predicate ArrayFits(data: Bytes) {
    |data| * 2 + 1 <= U29_MAX
  }

  function ByteArrayBytes(data: Bytes): Bytes
    requires ArrayFits(data)
  {
    U29(|data| * 2 + 1) + data
  }

  /** One field of an object: its key and the bytes written for its value. */
  datatype Entry = Entry(key: Bytes, value: Bytes)

  function EntryBytes(es: seq<Entry>): Bytes {
    if es == [] then [] else EntryBytes(es[..|es| - 1]) + StringBytes(es[|es| - 1].key) + es[|es| - 1].value
  }

  predicate EachKeyOnce(es: seq<Entry>, keys: set<Bytes>) {
    && (forall i :: 0 <= i < |es| ==> es[i].key in keys)
    && (forall i, j :: 0 <= i < j < |es| ==> es[i].key != es[j].key)
    && |es| == |keys|
  }

  const OBJECT_TAIL: Bytes := [0, 0, OBJECT_END]

  /** Some walk over the fields of every object in v makes the writer emit these bytes. */
  ghost predicate Writes(v: Value, out: Bytes)
    decreases v
  {
    match v
    case Null => out == [0x05]
    case Number(bits) => out == [0x00] + bits
    case Boolean(b) => out == [0x01, if b then 1 else 0]
    case String(s) => out == [0x02] + StringBytes(s)
    case ByteArray(data) => ArrayFits(data) && out == [0x11, 0x0c] + ByteArrayBytes(data)
    case Object(fields) =>
      exists es: seq<Entry> ::
        && EachKeyOnce(es, fields.Keys)
        && (forall i :: 0 <= i < |es| ==> es[i].key in fields && Writes(fields[es[i].key], es[i].value))
        && out == [0x03] + EntryBytes(es) + OBJECT_TAIL
  }

  /** Key lengths whose high byte is the object end marker, and the empty key, stop the reader. */
  predicate KeyOk(key: Bytes) {
    0 < |key| < U16_LIMIT && |key| / 256 != OBJECT_END
  }

  /** No string is too long for its length field and no key stops the reader. */
  predicate Readable(v: Value)
    decreases v
  {
    match v
    case String(s) => |s| < U16_LIMIT
    case Object(fields) => forall k :: k in fields ==> KeyOk(k) && Readable(fields[k])
    case _ => true
  }

  /** The writer takes every byte array without a panic. */
  predicate Writable(v: Value)
    decreases v
  {
    match v
    case ByteArray(data) => ArrayFits(data)
    case Object(fields) => forall k :: k in fields ==> Writable(fields[k])
    case _ => true
  }

  /** Every byte array has a header that reads back. */
  predicate ArraysOk(v: Value)
    decreases v
  {
    match v
    case ByteArray(data) => U29Survives(|data| * 2 + 1)
    case Object(fields) => forall k :: k in fields ==> ArraysOk(fields[k])
    case _ => true
  }

  // -------------------------------------------------------------- round trip

  lemma StringRoundTrip(s: Bytes, rest: Bytes)
    ensures TakeString(StringBytes(s) + rest) == Parsed(s, rest) <==> |s| < U16_LIMIT
  {
    assert StringBytes(s) + rest == U16(|s| % U16_LIMIT) + (s + rest);
    U16RoundTrip(|s| % U16_LIMIT, s + rest);
    if |s| < U16_LIMIT {
      TakeBytesPrefix(s, rest);
    }
  }

  lemma ByteArrayRoundTrip(data: Bytes, rest: Bytes)
    requires ArrayFits(data)
    ensures TakeByteArray(ByteArrayBytes(data) + rest) == Parsed(data, rest) <==> U29Survives(|data| * 2 + 1)
  {
    hide TakeU29, U29;
    var v := |data| * 2 + 1;
    assert ByteArrayBytes(data) + rest == U29(v) + (data + rest);
    U29RoundTrip(v, data + rest);
    if U29Survives(v) {
      TakeBytesPrefix(data, rest);
    } else {
      GapU29(v, data + rest);
    }
  }

  lemma ObjectEnds(fields: map<Bytes, Value>, rest: Bytes)
    ensures TakeObject(OBJECT_TAIL + rest, fields) == Some(Parsed(Object(fields), rest))
  {
    var b := OBJECT_TAIL + rest;
    assert TakeString(b) == Parsed([], [OBJECT_END] + rest);
    assert ([OBJECT_END] + rest)[1..] == rest;
  }

  /** A key that does not stop the reader, and whatever follows it. */
  lemma ObjectKey(key: Bytes, tail: Bytes, fields: map<Bytes, Value>)
    requires KeyOk(key)
    ensures var v := TakeAmf(tail);
      TakeObject(StringBytes(key) + tail, fields)
        == if v.None? then None else TakeObject(v.value.rest, fields[key := v.value.value])
  {
    hide TakeAmf, TakeString;
    var b := StringBytes(key) + tail;
    assert b[0] == |key| / 256;
    StringRoundTrip(key, tail);
  }

  /** The fields that a walk has passed. */
  function Passed(fields: map<Bytes, Value>, es: seq<Entry>): map<Bytes, Value>
    requires forall i :: 0 <= i < |es| ==> es[i].key in fields
  {
    if es == [] then map[]
    else Passed(fields, es[..|es| - 1])[es[|es| - 1].key := fields[es[|es| - 1].key]]
  }

  lemma SameSize<T>(a: set<T>, b: set<T>)
    requires a <= b && |a| == |b|
    ensures a == b
  {
    assert |b - a| == 0;
  }

  lemma {:induction false} NotPassed(fields: map<Bytes, Value>, es: seq<Entry>, k: Bytes)
    requires forall i :: 0 <= i < |es| ==> es[i].key in fields && es[i].key != k
    ensures k !in Passed(fields, es)
  {
    if es != [] {
      NotPassed(fields, es[..|es| - 1], k);
    }
  }

  lemma {:induction false} PassedKeys(fields: map<Bytes, Value>, es: seq<Entry>)
    requires forall i :: 0 <= i < |es| ==> es[i].key in fields
    requires forall i, j :: 0 <= i < j < |es| ==> es[i].key != es[j].key
    ensures forall k :: k in Passed(fields, es) ==> k in fields && Passed(fields, es)[k] == fields[k]
    ensures |Passed(fields, es).Keys| == |es|
  {
    if es != [] {
      var n := |es| - 1;
      PassedKeys(fields, es[..n]);
      NotPassed(fields, es[..n], es[n].key);
      assert Passed(fields, es).Keys == Passed(fields, es[..n]).Keys + {es[n].key};
    }
  }

  /** A walk over all keys passes every field. */
  lemma PassedAll(fields: map<Bytes, Value>, es: seq<Entry>)
    requires EachKeyOnce(es, fields.Keys)
    ensures Passed(fields, es) == fields
  {
    PassedKeys(fields, es);
    SameSize(Passed(fields, es).Keys, fields.Keys);
  }

  ghost predicate EntriesWrite(fields: map<Bytes, Value>, es: seq<Entry>) {
    forall i :: 0 <= i < |es| ==> es[i].key in fields && Writes(fields[es[i].key], es[i].value)
  }

  predicate EntriesGood(fields: map<Bytes, Value>, es: seq<Entry>)
    requires forall i :: 0 <= i < |es| ==> es[i].key in fields
  {
    forall i :: 0 <= i < |es| ==>
      KeyOk(es[i].key) && Readable(fields[es[i].key]) && ArraysOk(fields[es[i].key])
  }

  /** As long as the entries are good the reader stays in step with the writer. */
  lemma {:induction false} FieldsRoundTrip(fields: map<Bytes, Value>, es: seq<Entry>, rest: Bytes)
    requires EntriesWrite(fields, es) && EntriesGood(fields, es)
    ensures TakeObject(EntryBytes(es) + rest, map[]) == TakeObject(rest, Passed(fields, es))
    decreases Object(fields), 0, |es|
  {
    hide TakeObject, TakeAmf, StringBytes, KeyOk, Writes, Readable, ArraysOk;
    if es == [] {
      assert [] + rest == rest;
    } else {
      var n := |es| - 1;
      var e := es[n];
      assert EntryBytes(es) + rest == EntryBytes(es[..n]) + (StringBytes(e.key) + (e.value + rest));
      FieldsRoundTrip(fields, es[..n], StringBytes(e.key) + (e.value + rest));
      ValueRoundTrip(fields[e.key], e.value, rest);
      ObjectKey(e.key, e.value + rest, Passed(fields, es[..n]));
    }
  }

  lemma WritesObject(fields: map<Bytes, Value>, out: Bytes) returns (es: seq<Entry>)
    requires Writes(Object(fields), out)
    ensures EachKeyOnce(es, fields.Keys) && EntriesWrite(fields, es)
    ensures out == [0x03] + EntryBytes(es) + OBJECT_TAIL
  {
    es :| EachKeyOnce(es, fields.Keys) && EntriesWrite(fields, es) && out == [0x03] + EntryBytes(es) + OBJECT_TAIL;
  }

  lemma TakeObjectValue(b: Bytes)
    ensures TakeAmf([0x03] + b) == TakeObject(b, map[])
  {
    assert ([0x03] + b)[1..] == b;
  }

  /** Every value but an object. */
  lemma PlainRoundTrip(v: Value, out: Bytes, rest: Bytes)
    requires Writes(v, out) && Readable(v) && ArraysOk(v) && !v.Object?
    ensures TakeAmf(out + rest) == Some(Parsed(v, rest))
  {
    hide TakeString, StringBytes, TakeByteArray, ByteArrayBytes, TakeObject;
    var b := out + rest;
    match v
    case Null =>
      assert b[1..] == rest;
    case Number(bits) =>
      assert b[1..] == bits + rest && (bits + rest)[..8] == bits && (bits + rest)[8..] == rest;
    case Boolean(_) =>
      assert b[1..][1..] == rest;
    case String(s) =>
      assert b[1..] == StringBytes(s) + rest;
      StringRoundTrip(s, rest);
    case ByteArray(data) =>
      assert b[1..][1..] == ByteArrayBytes(data) + rest;
      ByteArrayRoundTrip(data, rest);
  }

  lemma {:induction false} ValueRoundTrip(v: Value, out: Bytes, rest: Bytes)
    requires Writes(v, out) && Readable(v) && ArraysOk(v)
    ensures TakeAmf(out + rest) == Some(Parsed(v, rest))
    decreases v, 1, 0
  {
    hide TakeAmf, TakeObject, Writes, EntryBytes;
    match v
    case Object(fields) =>
      var es := WritesObject(fields, out);
      assert out + rest == [0x03] + (EntryBytes(es) + (OBJECT_TAIL + rest));
      TakeObjectValue(EntryBytes(es) + (OBJECT_TAIL + rest));
      FieldsRoundTrip(fields, es, OBJECT_TAIL + rest);
      PassedAll(fields, es);
      ObjectEnds(fields, rest);
    case _ =>
      PlainRoundTrip(v, out, rest);
  }

  lemma StringFits(b: Bytes)
    ensures |TakeString(b).value| < U16_LIMIT
    ensures b != [] && b[0] != OBJECT_END && TakeString(b).value != [] ==> KeyOk(TakeString(b).value)
  {
  }

  lemma {:induction false} ReadFieldsReadable(b: Bytes, fields: map<Bytes, Value>)
    requires Readable(Object(fields))
    ensures TakeObject(b, fields).Some? ==> Readable(TakeObject(b, fields).value.value)
    decreases |b|, 0
  {
    hide TakeAmf, TakeString, KeyOk;
    if b != [] && b[0] != OBJECT_END {
      var key := TakeString(b);
      StringFits(b);
      StringShrinks(b);
      if key.value != [] {
        ReadReadable(key.rest);
        var v := TakeAmf(key.rest);
        if v.Some? {
          ReadFieldsReadable(v.value.rest, fields[key.value := v.value.value]);
        }
      }
    }
  }

  /** Whatever bytes arrive, the reader only ever returns readable values. */
  lemma {:induction false} ReadReadable(b: Bytes)
    ensures TakeAmf(b).Some? ==> Readable(TakeAmf(b).value.value)
    decreases |b|, 1
  {
    hide TakeObject, TakeString;
    StringFits(b[if b == [] then 0 else 1..]);
    if b != [] && b[0] == 0x03 {
      ReadFieldsReadable(b[1..], map[]);
    }
  }

  /** A byte array on its own survives exactly when its header does. */
  lemma ByteArrayValue(data: Bytes, out: Bytes, rest: Bytes)
    requires Writes(ByteArray(data), out)
    ensures TakeAmf(out + rest) == Some(Parsed(ByteArray(data), rest)) <==> U29Survives(|data| * 2 + 1)
  {
    hide TakeByteArray, ByteArrayBytes, TakeObject;
    assert (out + rest)[1..][1..] == ByteArrayBytes(data) + rest;
    ByteArrayRoundTrip(data, rest);
  }

  // ---------------------------------------------------------- writing methods

  method WriteString(w: Buffer, s: Bytes)
    modifies w
    ensures w.data == old(w.data) + StringBytes(s)
  {
    w.Write(U16(|s| % U16_LIMIT));
    w.Write(s);
  }

  method WriteAmf(w: Buffer, v: Value) returns (ghost out: Bytes)
    requires Writable(v)
    modifies w
    ensures Writes(v, out) && w.data == old(w.data) + out
    decreases v
  {
    hide StringBytes, EntryBytes, EachKeyOnce, U29;
    match v
    case Null =>
      w.WriteByte(0x05);
      out := [0x05];
    case Number(bits) =>
      w.WriteByte(0x00);
      w.Write(bits);
      out := [0x00] + bits;
    case Boolean(b) =>
      w.WriteByte(0x01);
      w.WriteByte(if b then 1 else 0);
      out := [0x01, if b then 1 else 0];
    case String(s) =>
      w.WriteByte(0x02);
      WriteString(w, s);
      out := [0x02] + StringBytes(s);
    case ByteArray(data) =>
      w.WriteByte(0x11);
      w.WriteByte(0x0c);
      WriteU29(w, |data| * 2 + 1);
      w.Write(data);
      out := [0x11, 0x0c] + ByteArrayBytes(data);
    case Object(fields) =>
      w.WriteByte(0x03);
      ghost var es := WriteFields(w, fields);
      out := [0x03] + EntryBytes(es) + OBJECT_TAIL;
  }

  lemma WalkOn(es: seq<Entry>, keys: set<Bytes>, e: Entry)
    requires EachKeyOnce(es, keys) && e.key !in keys
    ensures EachKeyOnce(es + [e], keys + {e.key})
  {
  }

  lemma EntryBytesSnoc(es: seq<Entry>, e: Entry)
    ensures EntryBytes(es + [e]) == EntryBytes(es) + StringBytes(e.key) + e.value
  {
    assert (es + [e])[..|es|] == es;
  }

  /** The walk over the map; the choice of the next key is left open, as Go leaves it. */
  method WriteFields(w: Buffer, fields: map<Bytes, Value>) returns (ghost es: seq<Entry>)
    requires forall k :: k in fields ==> Writable(fields[k])
    modifies w
    ensures EachKeyOnce(es, fields.Keys) && EntriesWrite(fields, es)
    ensures w.data == old(w.data) + EntryBytes(es) + OBJECT_TAIL
    decreases Object(fields), 0
  {
    hide StringBytes, EntryBytes, EachKeyOnce, Writable, Writes;
    var keys := fields.Keys;
    es := [];
    NoEntries(keys);
    while keys != {}
      invariant keys <= fields.Keys
      invariant EachKeyOnce(es, fields.Keys - keys) && EntriesWrite(fields, es)
      invariant w.data == old(w.data) + EntryBytes(es)
      decreases |keys|
    {
      var k :| k in keys;
      WriteString(w, k);
      ghost var value := WriteAmf(w, fields[k]);
      ghost var walked := fields.Keys - keys;
      WalkOn(es, walked, Entry(k, value));
      EntryBytesSnoc(es, Entry(k, value));
      es := es + [Entry(k, value)];
      keys := keys - {k};
      assert fields.Keys - keys == walked + {k};
    }
    assert fields.Keys - {} == fields.Keys;
    EmptyKey();
    WriteString(w, []);
    w.WriteByte(OBJECT_END);
  }

  lemma NoEntries(keys: set<Bytes>)
    ensures EachKeyOnce([], keys - keys) && EntryBytes([]) == []
  {
  }

  lemma EmptyKey()
    ensures StringBytes([]) + [OBJECT_END] == OBJECT_TAIL
  {
  }
}
