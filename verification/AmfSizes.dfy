/** How many bytes AMF values take, written and read, and what that says about values that do not survive. */
module AmfSizes {
  import opened Amf
  import opened ByteBuffers
  import opened Vlus

  // -------------------------------------------------------------------- sums

  ghost function Total(m: map<Bytes, nat>): nat
    decreases m.Keys
  {
    if m == map[] then 0
    else
      var k :| k in m;
      m[k] + Total(m - {k})
  }

  /** Any key may be taken out of the sum first. */
  lemma {:induction false} TotalWithout(m: map<Bytes, nat>, k: Bytes)
    requires k in m
    ensures Total(m) == m[k] + Total(m - {k})
    decreases m.Keys
  {
    var c :| c in m && Total(m) == m[c] + Total(m - {c});
    if c != k {
      TotalWithout(m - {c}, k);
      TotalWithout(m - {k}, c);
      assert m - {c} - {k} == m - {k} - {c};
    }
  }

  lemma TotalWith(m: map<Bytes, nat>, k: Bytes, x: nat)
    requires k !in m
    ensures Total(m[k := x]) == x + Total(m)
  {
    TotalWithout(m[k := x], k);
    assert m[k := x] - {k} == m;
  }

  // ------------------------------------------------------------------- sizes

  /** The bytes a reader needs for the header of a byte array of this length. */
  function HeaderSize(length: nat): nat {
    if length * 2 < 128 then 1 else if length * 2 < 16384 then 2 else if length * 2 < 0x20_0000 then 3 else 4
  }

  /** The fewest bytes from which a reader can get the value: an object may end with a single marker. */
  ghost function ReadSize(v: Value): nat
    decreases v, 1
  {
    match v
    case Null => 1
    case Number(_) => 9
    case Boolean(_) => 2
    case String(s) => 3 + |s|
    case ByteArray(data) => 2 + HeaderSize(|data|) + |data|
    case Object(_) => 2 + Total(FieldSizes(v))
  }

  ghost function FieldSizes(v: Value): map<Bytes, nat>
    requires v.Object?
    decreases v, 0
  {
    map k | k in v.fields :: FieldSize(k, v.fields[k])
  }

  ghost function FieldSize(k: Bytes, v: Value): nat
    decreases v, 2
  {
    2 + |k| + ReadSize(v)
  }

  /** The number of objects in the value, itself included. */
  ghost function Objects(v: Value): nat
    decreases v, 1
  {
    if v.Object? then 1 + Total(FieldObjects(v)) else 0
  }

  ghost function FieldObjects(v: Value): map<Bytes, nat>
    requires v.Object?
    decreases v, 0
  {
    map k | k in v.fields :: Objects(v.fields[k])
  }

  lemma EmptyObject()
    ensures ReadSize(Object(map[])) == 2 && Objects(Object(map[])) == 1
  {
    assert |FieldSizes(Object(map[])).Keys| == 0 && |FieldObjects(Object(map[])).Keys| == 0;
  }

  lemma FieldSizesWith(fields: map<Bytes, Value>, k: Bytes, v: Value)
    ensures FieldSizes(Object(fields[k := v])) == FieldSizes(Object(fields - {k}))[k := FieldSize(k, v)]
    ensures k !in FieldSizes(Object(fields - {k}))
  {
    hide ReadSize, FieldSize, Total;
    var more, less := FieldSizes(Object(fields[k := v])), FieldSizes(Object(fields - {k}));
    assert more.Keys == less.Keys + {k};
  }

  lemma FieldObjectsWith(fields: map<Bytes, Value>, k: Bytes, v: Value)
    ensures FieldObjects(Object(fields[k := v])) == FieldObjects(Object(fields - {k}))[k := Objects(v)]
    ensures k !in FieldObjects(Object(fields - {k}))
  {
    hide Objects, Total;
    var more, less := FieldObjects(Object(fields[k := v])), FieldObjects(Object(fields - {k}));
    assert more.Keys == less.Keys + {k};
  }

  lemma SizeWith(fields: map<Bytes, Value>, k: Bytes, v: Value)
    ensures ReadSize(Object(fields[k := v])) == ReadSize(Object(fields - {k})) + 2 + |k| + ReadSize(v)
    ensures Objects(Object(fields[k := v])) == Objects(Object(fields - {k})) + Objects(v)
  {
    hide FieldSizes, FieldObjects, Total;
    FieldSizesWith(fields, k, v);
    TotalWith(FieldSizes(Object(fields - {k})), k, FieldSize(k, v));
    FieldObjectsWith(fields, k, v);
    TotalWith(FieldObjects(Object(fields - {k})), k, Objects(v));
  }

  /** Dropping a field makes no value larger. */
  lemma SizeWithout(fields: map<Bytes, Value>, k: Bytes)
    ensures ReadSize(Object(fields - {k})) <= ReadSize(Object(fields))
  {
    hide ReadSize, Objects;
    if k in fields {
      SizeWith(fields, k, fields[k]);
      assert fields[k := fields[k]] == fields;
    } else {
      assert fields - {k} == fields;
    }
  }

  // ------------------------------------------------------- reading takes bytes

  /** After j bytes of a header the value is below 128 to the power j; the fourth byte ends it. */
  lemma HeaderTakes(b: Bytes)
    requires TakeU29(b).rest != []
    ensures |b| - |TakeU29(b).rest| >= HeaderSize(TakeU29(b).value / 2)
  {
    var v0 := TakeU8(b);
    var v1 := TakeU8(v0.rest);
    var v2 := TakeU8(v1.rest);
    U29Shrinks(v0.value % 128, 1, v0.rest);
    U29Shrinks(v0.value % 128 * 128 + v1.value % 128, 2, v1.rest);
    U29Shrinks((v0.value % 128 * 128 + v1.value % 128) * 128 + v2.value % 128, 3, v2.rest);
    HeaderSteps(b);
  }

  lemma HeaderSteps(b: Bytes)
    ensures var v0 := TakeU8(b);
      var v1 := TakeU8(v0.rest);
      var v2 := TakeU8(v1.rest);
      var v3 := TakeU8(v2.rest);
      var a1: nat := v0.value % 128;
      var a2: nat := a1 * 128 + v1.value % 128;
      var a3: nat := a2 * 128 + v2.value % 128;
      TakeU29(b) ==
        if v0.value < 128 then Parsed(a1, v0.rest)
        else if v1.value < 128 then Parsed(a2, v1.rest)
        else if v2.value < 128 then Parsed(a3, v2.rest)
        else Parsed(a3 * 256 + v3.value, v3.rest)
  {
    var v0 := TakeU8(b);
    var v1 := TakeU8(v0.rest);
    var v2 := TakeU8(v1.rest);
    var a1: nat := v0.value % 128;
    var a2: nat := a1 * 128 + v1.value % 128;
    assert TakeU29(b) == if v0.value < 128 then Parsed(a1, v0.rest) else TakeU29From(a1, 1, v0.rest);
    assert TakeU29From(a1, 1, v0.rest) == if v1.value < 128 then Parsed(a2, v1.rest) else TakeU29From(a2, 2, v1.rest);
  }

  lemma StringTakes(b: Bytes)
    requires TakeString(b).rest != []
    ensures |b| - |TakeString(b).rest| == 2 + |TakeString(b).value|
  {
  }

  lemma ArrayTakes(b: Bytes)
    ensures |TakeByteArray(b).value| == TakeU29(b).value / 2
    ensures TakeByteArray(b).rest != [] ==>
      |b| - |TakeByteArray(b).rest| >= HeaderSize(|TakeByteArray(b).value|) + |TakeByteArray(b).value|
  {
    hide TakeU29, HeaderSize;
    if TakeByteArray(b).rest != [] {
      HeaderTakes(b);
    }
  }

  /** A value that is not cut short by the end of the bytes takes at least its size. */
  lemma {:induction false} ValueTakes(b: Bytes)
    requires TakeAmf(b).Some?
    requires TakeAmf(b).value.value.Object? || TakeAmf(b).value.rest != []
    ensures var p := TakeAmf(b).value;
      |b| - |p.rest| >= ReadSize(p.value)
    decreases |b|, 1
  {
    hide TakeObject, TakeString, TakeByteArray;
    if b != [] {
      var kind := b[0];
      if kind == 0x02 {
        StringTakes(b[1..]);
      } else if kind == 0x03 {
        EmptyObject();
        FieldsTake(b[1..], map[]);
      } else if kind == 0x11 {
        ArrayTakes(b[1..][1..]);
      }
    }
  }

  lemma StepFields(b: Bytes, fields: map<Bytes, Value>)
    requires TakeObject(b, fields).Some?
    ensures b != []
    ensures b[0] == OBJECT_END || TakeString(b).value == [] ==> TakeObject(b, fields).value.value == Object(fields)
    ensures |TakeObject(b, fields).value.rest| < |b|
    ensures b[0] != OBJECT_END && TakeString(b).value != [] ==>
      var key := TakeString(b);
      var v := TakeAmf(key.rest);
      && v.Some? && v.value.rest != [] && key.rest != []
      && |key.rest| < |b|
      && TakeObject(b, fields) == TakeObject(v.value.rest, fields[key.value := v.value.value])
  {
    hide TakeAmf;
    StringShrinks(b);
  }

  /** Filling a map with fields takes at least what they add to its size. */
  lemma {:induction false} FieldsTake(b: Bytes, fields: map<Bytes, Value>)
    requires TakeObject(b, fields).Some?
    ensures var p := TakeObject(b, fields).value;
      |b| - |p.rest| + ReadSize(Object(fields)) >= 1 + ReadSize(p.value)
    decreases |b|, 0
  {
    hide TakeObject, TakeAmf, TakeString, ReadSize;
    StepFields(b, fields);
    if b[0] != OBJECT_END && TakeString(b).value != [] {
      var key := TakeString(b);
      var v := TakeAmf(key.rest).value;
      StringTakes(b);
      ValueTakes(key.rest);
      FieldsTake(v.rest, fields[key.value := v.value]);
      SizeWith(fields, key.value, v.value);
      SizeWithout(fields, key.value);
    }
  }

  /** When a field is in the end something else, its present value has not been paid for. */
  lemma {:induction false} OtherFieldsTake(b: Bytes, fields: map<Bytes, Value>, k: Bytes)
    requires TakeObject(b, fields).Some? && k in fields
    requires var f := TakeObject(b, fields).value.value.fields; k !in f || f[k] != fields[k]
    ensures var p := TakeObject(b, fields).value;
      |b| - |p.rest| + ReadSize(Object(fields - {k})) >= 1 + ReadSize(p.value)
    decreases |b|
  {
    hide TakeObject, TakeAmf, TakeString, ReadSize;
    StepFields(b, fields);
    if b[0] != OBJECT_END && TakeString(b).value != [] {
      var key := TakeString(b);
      var v := TakeAmf(key.rest).value;
      var next := fields[key.value := v.value];
      StringTakes(b);
      ValueTakes(key.rest);
      if key.value == k {
        SizeWith(fields, k, v.value);
        FieldsTake(v.rest, next);
      } else {
        OtherFieldsTake(v.rest, next, k);
        assert next - {k} == (fields - {k})[key.value := v.value];
        SizeWith(fields - {k}, key.value, v.value);
        SizeWithout(fields - {k}, key.value);
      }
    }
  }

  // ------------------------------------------------------- writing takes bytes

  lemma ArrayWritten(data: Bytes)
    requires ArrayFits(data)
    ensures |ByteArrayBytes(data)| <= HeaderSize(|data|) + |data|
    ensures U29Survives(|data| * 2 + 1) ==> |ByteArrayBytes(data)| == HeaderSize(|data|) + |data|
  {
    hide Digits;
    var v := |data| * 2 + 1;
    if v <= 0x1F_FFFF {
      FewDigits(v, false);
    } else {
      FewDigits(v / 256, true);
    }
  }

  /** Every value takes what a reader needs, two bytes more for each object, and less only for a broken header. */
  lemma {:induction false} ValueWritten(v: Value, out: Bytes)
    requires Writes(v, out)
    ensures |out| <= ReadSize(v) + 2 * Objects(v)
    ensures ArraysOk(v) ==> |out| >= ReadSize(v)
    decreases v, 1, 0
  {
    hide ByteArrayBytes, HeaderSize, EntryBytes, FieldSizes, FieldObjects, Total;
    match v
    case ByteArray(data) =>
      ArrayWritten(data);
    case Object(fields) =>
      var es := WritesObject(fields, out);
      PassedAll(fields, es);
      EntriesWritten(fields, es);
    case _ =>
  }

  lemma {:induction false} EntriesWritten(fields: map<Bytes, Value>, es: seq<Entry>)
    requires EntriesWrite(fields, es)
    requires forall i, j :: 0 <= i < j < |es| ==> es[i].key != es[j].key
    ensures var passed := Object(Passed(fields, es));
      && |EntryBytes(es)| + 4 <= ReadSize(passed) + 2 * Objects(passed)
      && ((forall i :: 0 <= i < |es| ==> ArraysOk(fields[es[i].key])) ==> |EntryBytes(es)| + 2 >= ReadSize(passed))
    decreases Object(fields), 0, |es|
  {
    hide ReadSize, Objects, ArraysOk, Writes;
    if es == [] {
      EmptyObject();
    } else {
      var n := |es| - 1;
      var e := es[n];
      var before := Passed(fields, es[..n]);
      EntriesWritten(fields, es[..n]);
      ValueWritten(fields[e.key], e.value);
      NotPassed(fields, es[..n], e.key);
      SizeWith(before, e.key, fields[e.key]);
      assert before - {e.key} == before;
    }
  }

  // ------------------------------------------------------------ broken arrays

  /** A header out of step makes the reader swallow at least this much. */
  const MISREAD := 0x8_0000

  lemma BrokenArray(data: Bytes, rest: Bytes)
    requires ArrayFits(data) && !U29Survives(|data| * 2 + 1)
    ensures var b := [0x11, 0x0c] + ByteArrayBytes(data) + rest;
      && TakeAmf(b).Some? && TakeAmf(b).value.value != ByteArray(data)
      && (TakeAmf(b).value.rest != [] ==> |b| - |TakeAmf(b).value.rest| >= MISREAD)
  {
    hide TakeU29, U29, TakeObject, TakeString, TakeByteArray, HeaderSize;
    var b := [0x11, 0x0c] + ByteArrayBytes(data) + rest;
    var v := |data| * 2 + 1;
    assert b[1..][1..] == U29(v) + (data + rest);
    GapU29(v, data + rest);
    ArrayTakes(b[1..][1..]);
  }

  lemma {:induction false} EntryPrefix(es: seq<Entry>, i: nat) returns (tail: Bytes)
    requires i <= |es|
    ensures EntryBytes(es) == EntryBytes(es[..i]) + tail
    decreases |es|
  {
    if i == |es| {
      assert es[..i] == es;
      tail := [];
    } else {
      hide StringBytes;
      var n := |es| - 1;
      var inner := EntryPrefix(es[..n], i);
      assert es[..n][..i] == es[..i];
      tail := inner + StringBytes(es[n].key) + es[n].value;
    }
  }

  /** The first entry, in the order of the walk, that holds a broken array. */
  lemma FirstBroken(fields: map<Bytes, Value>, es: seq<Entry>) returns (i: nat)
    requires EachKeyOnce(es, fields.Keys) && !ArraysOk(Object(fields))
    ensures i < |es| && es[i].key in fields && !ArraysOk(fields[es[i].key])
    ensures forall j :: 0 <= j < i ==> es[j].key in fields && ArraysOk(fields[es[j].key])
  {
    var k :| k in fields && !ArraysOk(fields[k]);
    PassedAll(fields, es);
    if forall j :: 0 <= j < |es| ==> es[j].key != k {
      NotPassed(fields, es, k);
    }
    i := 0;
    while ArraysOk(fields[es[i].key])
      invariant i < |es| && es[i].key in fields
      invariant forall j :: 0 <= j < i ==> es[j].key in fields && ArraysOk(fields[es[j].key])
      decreases |es| - i
    {
      i := i + 1;
    }
  }

  /** Up to its first broken entry the object is read in step, and there the reader goes on as shown. */
  lemma InStep(fields: map<Bytes, Value>, es: seq<Entry>, i: nat, rest: Bytes) returns (follows: Bytes)
    requires EachKeyOnce(es, fields.Keys) && EntriesWrite(fields, es) && i < |es|
    requires Readable(Object(fields)) && forall j :: 0 <= j < i ==> ArraysOk(fields[es[j].key])
    ensures var tail := es[i].value + follows;
      var v := TakeAmf(tail);
      var acc := Passed(fields, es[..i]);
      && EntryBytes(es) + rest == EntryBytes(es[..i]) + (StringBytes(es[i].key) + tail)
      && TakeObject(EntryBytes(es) + rest, map[])
           == if v.None? then None else TakeObject(v.value.rest, acc[es[i].key := v.value.value])
    ensures es[i].key !in Passed(fields, es[..i])
    ensures |EntryBytes(es[..i])| + 2 >= ReadSize(Object(Passed(fields, es[..i])))
  {
    hide TakeObject, TakeAmf, StringBytes, ReadSize, Writes, KeyOk;
    var key, value := es[i].key, es[i].value;
    var more := EntryPrefix(es, i + 1);
    assert es[..i + 1][..i] == es[..i];
    follows := more + rest;
    assert EntryBytes(es) + rest == EntryBytes(es[..i]) + (StringBytes(key) + (value + follows));
    FieldsRoundTrip(fields, es[..i], StringBytes(key) + (value + follows));
    ObjectKey(key, value + follows, Passed(fields, es[..i]));
    NotPassed(fields, es[..i], key);
    EntriesWritten(fields, es[..i]);
  }

  /** What the reader takes from a broken object on, from its first broken entry. */
  lemma BrokenEntry(v: Value, key: Bytes, tail: Bytes, acc: map<Bytes, Value>)
    requires v.Object? && key in v.fields && key !in acc
    requires TakeAmf(tail).Some? && |tail| - |TakeAmf(tail).value.rest| >= MISREAD
    requires TakeAmf(tail).value.value == v.fields[key] ==>
      |tail| - |TakeAmf(tail).value.rest| >= MISREAD + ReadSize(v.fields[key])
    requires TakeObject(TakeAmf(tail).value.rest, acc[key := TakeAmf(tail).value.value]).Some?
    ensures var p := TakeObject(TakeAmf(tail).value.rest, acc[key := TakeAmf(tail).value.value]).value;
      p.value == v ==> |tail| - |p.rest| + ReadSize(Object(acc)) + 2 + |key| >= MISREAD + 1 + ReadSize(v)
  {
    hide TakeObject, TakeAmf, ReadSize;
    var w := TakeAmf(tail).value;
    var next := acc[key := w.value];
    if TakeObject(w.rest, next).value.value == v {
      assert acc - {key} == acc && next - {key} == acc;
      SizeWith(acc, key, w.value);
      if w.value == v.fields[key] {
        FieldsTake(w.rest, next);
      } else {
        OtherFieldsTake(w.rest, next, key);
      }
    }
  }

  /** Reading a value with a broken array takes too many bytes, and even more when it gets the value right. */
  lemma {:induction false} BrokenTakes(v: Value, out: Bytes, rest: Bytes)
    requires Writes(v, out) && Readable(v) && !ArraysOk(v)
    requires TakeAmf(out + rest).Some? && (v.Object? || TakeAmf(out + rest).value.rest != [])
    ensures |out + rest| - |TakeAmf(out + rest).value.rest| >= MISREAD
    ensures TakeAmf(out + rest).value.value == v ==>
      |out + rest| - |TakeAmf(out + rest).value.rest| >= MISREAD + ReadSize(v)
    decreases v
  {
    hide TakeAmf, TakeObject, Writes, EntryBytes, ReadSize, StringBytes, ByteArrayBytes, EachKeyOnce;
    match v
    case ByteArray(data) =>
      ArrayWrites(data, out);
      BrokenArray(data, rest);
    case Object(fields) =>
      var es := WritesObject(fields, out);
      var i := FirstBroken(fields, es);
      assert out + rest == [0x03] + (EntryBytes(es) + (OBJECT_TAIL + rest));
      TakeObjectValue(EntryBytes(es) + (OBJECT_TAIL + rest));
      var follows := InStep(fields, es, i, OBJECT_TAIL + rest);
      var key, tail := es[i].key, es[i].value + follows;
      KeyBytes(key);
      var w := TakeAmf(tail).value;
      StepFields(w.rest, Passed(fields, es[..i])[key := w.value]);
      BrokenTakes(fields[key], es[i].value, follows);
      BrokenEntry(v, key, tail, Passed(fields, es[..i]));
    case _ =>
  }

  lemma KeyBytes(key: Bytes)
    ensures |StringBytes(key)| == 2 + |key|
  {
  }

  lemma ArrayWrites(data: Bytes, out: Bytes)
    requires Writes(ByteArray(data), out)
    ensures ArrayFits(data) && out == [0x11, 0x0c] + ByteArrayBytes(data)
  {
  }

  // ---------------------------------------------------------------- exactness

  /** A value with a broken array never comes back from the bytes that were written for it. */
  lemma BrokenNeverReads(v: Value, out: Bytes, rest: Bytes)
    requires Writes(v, out) && Readable(v) && !ArraysOk(v) && 2 * Objects(v) < MISREAD
    ensures TakeAmf(out + rest).Some? && TakeAmf(out + rest).value.value == v ==>
      |TakeAmf(out + rest).value.rest| < |rest|
  {
    hide TakeAmf, Writes, Readable, ArraysOk, ReadSize, Objects, ByteArrayBytes;
    if TakeAmf(out + rest).Some? && TakeAmf(out + rest).value.value == v {
      if v.Object? {
        BrokenTakes(v, out, rest);
        ValueWritten(v, out);
      } else {
        BrokenPlain(v, out, rest);
      }
    }
  }

  lemma BrokenPlain(v: Value, out: Bytes, rest: Bytes)
    requires Writes(v, out) && !ArraysOk(v) && !v.Object?
    ensures TakeAmf(out + rest).Some? ==> TakeAmf(out + rest).value.value != v
  {
    hide TakeAmf, Writes, ByteArrayBytes;
    match v
    case ByteArray(data) =>
      ArrayWrites(data, out);
      BrokenArray(data, rest);
    case _ =>
  }

  /**
   * For every order in which the fields of every map were written, reading returns the value and leaves the
   * rest alone, if and only if no string is over-long, no key stops the reader and every byte array has a
   * header that reads back. The "only if" for byte arrays is for values of fewer than 262144 objects.
   */
  lemma AmfRoundTrip(v: Value, out: Bytes, rest: Bytes)
    requires Writes(v, out)
    ensures Readable(v) && ArraysOk(v) ==> TakeAmf(out + rest) == Some(Parsed(v, rest))
    ensures TakeAmf(out + rest) == Some(Parsed(v, rest)) ==>
      Readable(v) && (ArraysOk(v) || Objects(v) >= 0x4_0000)
  {
    hide TakeAmf, Writes, Readable, ArraysOk, Objects;
    if Readable(v) && ArraysOk(v) {
      ValueRoundTrip(v, out, rest);
    }
    ReadReadable(out + rest);
    if Readable(v) && !ArraysOk(v) && Objects(v) < 0x4_0000 {
      BrokenNeverReads(v, out, rest);
    }
  }
}
