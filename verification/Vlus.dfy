/** Variable-length unsigned integers (section 2.1.2 of RFC 7016) and option lists. */
module Vlus {
  import opened ByteBuffers

  // ---------------------------------------------------------------- integers

  /** Base-128 digits of v, high digit first; every digit but the last carries the "more" bit. */
  function Digits(v: nat, more: bool): (b: Bytes)
    ensures |b| > 0
  {
    if v < 128 then [if more then v + 128 else v]
    else Digits(v / 128, true) + Digits(v % 128, more)
  }

  function Vlu(v: nat): (b: Bytes)
    ensures |b| > 0
  {
    Digits(v, false)
  }

  /** The decoder's loop: acc is the value of the digits consumed so far. */
  function TakeDigits(acc: nat, b: Bytes): (p: Parsed<nat>)
    ensures b != [] ==> |p.rest| < |b|
    ensures |p.rest| <= |b|
    decreases |b|
  {
    if b == [] then Parsed(acc * 128, [])
    else if b[0] < 128 then Parsed(acc * 128 + b[0], b[1..])
    else TakeDigits(acc * 128 + (b[0] - 128), b[1..])
  }

  function TakeVlu(b: Bytes): (p: Parsed<nat>)
    ensures b != [] ==> |p.rest| < |b|
    ensures |p.rest| <= |b|
  {
    TakeDigits(0, b)
  }

  lemma OneByteVlu(v: nat)
    requires v < 128
    ensures Vlu(v) == [v]
  {
  }

  lemma {:induction false} HighDigitsAccumulate(v: nat, rest: Bytes)
    ensures TakeDigits(0, Digits(v, true) + rest) == TakeDigits(v, rest)
  {
    if v < 128 {
      assert (Digits(v, true) + rest)[1..] == rest;
    } else {
      var low := [v % 128 + 128];
      HighDigitsAccumulate(v / 128, low + rest);
      assert Digits(v % 128, true) == low;
      assert Digits(v, true) + rest == Digits(v / 128, true) + (low + rest);
      assert (low + rest)[1..] == rest;
    }
  }

  /** The decoder undoes the encoder on every natural and stops exactly at its end. */
  lemma VluRoundTrip(v: nat, rest: Bytes)
    ensures TakeVlu(Vlu(v) + rest) == Parsed(v, rest)
  {
    if v < 128 {
      assert (Vlu(v) + rest)[1..] == rest;
    } else {
      var low := [v % 128];
      HighDigitsAccumulate(v / 128, low + rest);
      assert Digits(v % 128, false) == low;
      assert Vlu(v) + rest == Digits(v / 128, true) + (low + rest);
      assert (low + rest)[1..] == rest;
    }
  }

  /** The digits in front, read high digit first: seven bits each. */
  function DigitValue(b: Bytes): nat {
    if b == [] then 0 else DigitValue(b[..|b| - 1]) * 128 + b[|b| - 1] % 128
  }

  predicate MoreBits(b: Bytes) {
    forall i :: 0 <= i < |b| ==> b[i] >= 128
  }

  lemma DigitValueSnoc(b: Bytes, d: byte)
    ensures DigitValue(b + [d]) == DigitValue(b) * 128 + d % 128
  {
    assert (b + [d])[..|b|] == b;
  }

  lemma {:induction false} HighDigitsMean(v: nat)
    ensures MoreBits(Digits(v, true)) && DigitValue(Digits(v, true)) == v
    ensures v > 0 ==> Digits(v, true)[0] != 128
  {
    if v >= 128 {
      HighDigitsMean(v / 128);
      DigitValueSnoc(Digits(v / 128, true), v % 128 + 128);
      assert Digits(v, true) == Digits(v / 128, true) + [v % 128 + 128];
    } else {
      assert [v + 128 as byte] == [] + [v + 128];
      DigitValueSnoc([], v + 128);
    }
  }

  /** Seven bits a byte, high digits first; all but the last have the high bit set, and no digit is wasted. */
  lemma VluMeans(v: nat)
    ensures var b := Vlu(v);
      && DigitValue(b) == v && MoreBits(b[..|b| - 1]) && b[|b| - 1] < 128 && b[0] != 128
  {
    if v >= 128 {
      var high := Digits(v / 128, true);
      HighDigitsMean(v / 128);
      DigitValueSnoc(high, v % 128);
      assert Digits(v % 128, false) == [v % 128];
      assert Vlu(v) == high + [v % 128];
    } else {
      assert Vlu(v) == [] + [v];
      DigitValueSnoc([], v);
    }
  }

  /** No encoding is a proper prefix of another: two encodings that start a common buffer agree. */
  lemma VluSelfDelimiting(v: nat, w: nat, s: Bytes, t: Bytes)
    requires Vlu(v) + s == Vlu(w) + t
    ensures v == w && s == t
  {
    VluRoundTrip(v, s);
    VluRoundTrip(w, t);
  }

  lemma {:induction false} MoreBit(v: nat)
    ensures Digits(v, true)[0] >= 128
  {
    if v >= 128 {
      MoreBit(v / 128);
    }
  }

  lemma LongVlu(v: nat)
    requires v >= 128
    ensures |Vlu(v)| >= 2 && Vlu(v)[0] >= 128
  {
    MoreBit(v / 128);
  }

  lemma {:induction false} RestIgnoresValue(acc1: nat, acc2: nat, b: Bytes)
    ensures TakeDigits(acc1, b).rest == TakeDigits(acc2, b).rest
    decreases |b|
  {
    if b != [] && b[0] >= 128 {
      RestIgnoresValue(acc1 * 128 + (b[0] - 128), acc2 * 128 + (b[0] - 128), b[1..]);
    }
  }

  /** Without its first byte a long integer still ends where it ended. */
  lemma LongVluTail(v: nat, rest: Bytes)
    requires v >= 128
    ensures |Vlu(v)| >= 2 && TakeVlu(Vlu(v)[1..] + rest).rest == rest
  {
    LongVlu(v);
    var b := Vlu(v) + rest;
    assert b[1..] == Vlu(v)[1..] + rest;
    VluRoundTrip(v, rest);
    RestIgnoresValue(0, b[0] - 128, b[1..]);
  }

  method InternalEncodeVlu(w: Buffer, v: nat, more: bool)
    modifies w
    ensures w.data == old(w.data) + Digits(v, more)
    decreases v
  {
    if v >= 128 {
      InternalEncodeVlu(w, v / 128, true);
      InternalEncodeVlu(w, v % 128, more);
      assert w.data == old(w.data) + (Digits(v / 128, true) + Digits(v % 128, more));
    } else {
      var digit := v;
      if more {
        digit := digit + 128;
      }
      w.WriteByte(digit);
    }
  }

  method EncodeVlu(w: Buffer, v: nat)
    modifies w
    ensures w.data == old(w.data) + Vlu(v)
  {
    InternalEncodeVlu(w, v, false);
  }

  method DecodeVlu(r: Buffer) returns (value: nat)
    modifies r
    ensures Parsed(value, r.data) == TakeVlu(old(r.data))
  {
    value := 0;
    var more := true;
    while more
      invariant if more then TakeDigits(value, r.data) == TakeVlu(old(r.data))
                else Parsed(value, r.data) == TakeVlu(old(r.data))
      decreases more, |r.data|
    {
      var v := r.ReadU8();
      value := value * 128 + v % 128;
      more := v >= 128;
    }
  }

  // ------------------------------------------------------------ option lists

  /** A canonical list of length-prefixed, non-empty options, without the terminating zero. */
  predicate OptionList(b: Bytes)
    decreases |b|
  {
    b == [] ||
    var p := TakeVlu(b);
    0 < p.value <= |p.rest| && b == Vlu(p.value) + p.rest && OptionList(p.rest[p.value..])
  }

  /** The bytes read_options re-encodes, up to and including the terminator it found. */
  function TakeOptions(b: Bytes): (p: Parsed<Bytes>)
    ensures b != [] ==> |p.rest| < |b|
    ensures |p.rest| <= |b|
    decreases |b|
  {
    var len := TakeVlu(b);
    if len.value == 0 || b == [] then Parsed(Vlu(len.value), len.rest)
    else
      var option := TakeBytes(len.rest, len.value);
      var tail := TakeOptions(option.rest);
      Parsed(Vlu(len.value) + option.value + tail.value, tail.rest)
  }

  lemma TakeOptionsStep(option: Bytes, tail: Bytes)
    requires option != []
    ensures TakeOptions(Vlu(|option|) + (option + tail))
         == Parsed(Vlu(|option|) + option + TakeOptions(tail).value, TakeOptions(tail).rest)
  {
    hide Vlu, TakeVlu;
    VluRoundTrip(|option|, option + tail);
    TakeBytesPrefix(option, tail);
  }

  lemma Reassociate(a: Bytes, b: Bytes, c: Bytes, d: Bytes, e: Bytes)
    ensures a + (b + c) + d + e == a + (b + (c + d + e))
    ensures a + (b + c) + d == a + b + (c + d)
    ensures a + (b + c) + d == a + (b + (c + d))
  {
  }

  lemma FirstOption(list: Bytes) returns (option: Bytes, tail: Bytes)
    requires OptionList(list) && list != []
    ensures list == Vlu(|option|) + (option + tail)
    ensures option != [] && OptionList(tail) && |tail| < |list|
  {
    var p := TakeVlu(list);
    option, tail := p.rest[..p.value], p.rest[p.value..];
    assert option + tail == p.rest;
  }

  lemma {:induction false} OptionsRoundTrip(list: Bytes, rest: Bytes)
    requires OptionList(list)
    ensures TakeOptions(list + [0] + rest) == Parsed(list + [0], rest)
    decreases |list|
  {
    if list == [] {
      assert list + [0] + rest == Vlu(0) + rest;
      VluRoundTrip(0, rest);
    } else {
      var option, tail := FirstOption(list);
      Reassociate(Vlu(|option|), option, tail, [0], rest);
      OptionsRoundTrip(tail, rest);
      TakeOptionsStep(option, tail + [0] + rest);
    }
  }

  lemma OptionListCons(option: Bytes, tail: Bytes)
    requires option != [] && OptionList(tail)
    ensures OptionList(Vlu(|option|) + (option + tail))
  {
    VluRoundTrip(|option|, option + tail);
    assert (option + tail)[|option|..] == tail;
  }

  lemma {:induction false} OptionListAppend(a: Bytes, b: Bytes)
    requires OptionList(a) && OptionList(b)
    ensures OptionList(a + b)
    decreases |a|
  {
    if a == [] {
      assert a + b == b;
    } else {
      var option, tail := FirstOption(a);
      Reassociate(Vlu(|option|), option, tail, b, []);
      OptionListAppend(tail, b);
      OptionListCons(option, tail + b);
    }
  }

  lemma {:induction false} OptionsSkipList(list: Bytes, x: Bytes)
    requires OptionList(list)
    ensures TakeOptions(list + x).rest == TakeOptions(x).rest
    decreases |list|
  {
    if list == [] {
      assert list + x == x;
    } else {
      var option, tail := FirstOption(list);
      Reassociate(Vlu(|option|), option, tail, x, []);
      TakeOptionsStep(option, tail + x);
      OptionsSkipList(tail, x);
    }
  }

  method ReadOptions(r: Buffer) returns (options: Bytes)
    modifies r
    ensures Parsed(options, r.data) == TakeOptions(old(r.data))
  {
    var w := new Buffer([]);
    ghost var all := TakeOptions(r.data);
    assert [] + all.value == all.value;
    while true
      invariant fresh(w) && w != r
      invariant w.data + TakeOptions(r.data).value == all.value && TakeOptions(r.data).rest == all.rest
      decreases |r.data|
    {
      ghost var before, written := r.data, w.data;
      var len := DecodeVlu(r);
      EncodeVlu(w, len);
      if len == 0 {
        break;
      }
      TakeOptionsAppend(written, before);
      var option := r.Read(len);
      w.Write(option);
    }
    options := w.data;
  }

  lemma TakeOptionsAppend(written: Bytes, b: Bytes)
    requires b != [] && TakeVlu(b).value > 0
    ensures var len := TakeVlu(b);
      var option := TakeBytes(len.rest, len.value);
      && TakeOptions(b).rest == TakeOptions(option.rest).rest
      && written + TakeOptions(b).value
         == written + Vlu(len.value) + option.value + TakeOptions(option.rest).value
  {
    hide Vlu, TakeVlu;
  }

  /** Missing is the source's nil; OutOfRange is a slice or a skip of negative length, or beyond the buffer. */
  datatype Search = Missing | Found(data: Bytes) | OutOfRange

  /** The data of the first option of the given type. */
  function FindOption(b: Bytes, kind: byte): Search
    decreases |b|
  {
    if b == [] then Missing
    else
      var len := TakeVlu(b);
      var thisKind := TakeU8(len.rest);
      if len.value == 0 then OutOfRange
      else if kind == thisKind.value then
        if len.value - 1 <= |thisKind.rest| then Found(thisKind.rest[..len.value - 1]) else OutOfRange
      else FindOption(Skip(thisKind.rest, len.value - 1), kind)
  }

  lemma FindHere(option: Bytes, tail: Bytes)
    requires option != []
    ensures FindOption(Vlu(|option|) + (option + tail), option[0]) == Found(option[1..])
  {
    hide Vlu, TakeVlu;
    VluRoundTrip(|option|, option + tail);
    assert (option + tail)[1..] == option[1..] + tail;
    assert (option[1..] + tail)[..|option| - 1] == option[1..];
  }

  lemma FindBehind(option: Bytes, tail: Bytes, kind: byte)
    requires option != [] && option[0] != kind
    ensures FindOption(Vlu(|option|) + (option + tail), kind) == FindOption(tail, kind)
  {
    hide Vlu, TakeVlu;
    VluRoundTrip(|option|, option + tail);
    assert (option + tail)[1..] == option[1..] + tail;
    assert (option[1..] + tail)[|option| - 1..] == tail;
  }

  /** None is the negative r.Next that panics in the source. */
  function FindVluOption(b: Bytes, kind: byte, default: nat): Option<nat>
    decreases |b|
  {
    if b == [] then Some(default)
    else
      var len := TakeVlu(b);
      var thisKind := TakeU8(len.rest);
      if kind == thisKind.value then Some(TakeVlu(thisKind.rest).value)
      else if len.value == 0 then None
      else FindVluOption(Skip(thisKind.rest, len.value - 1), kind, default)
  }

  method ReadOption(buf: Bytes, kind: byte) returns (data: Search)
    ensures data == FindOption(buf, kind)
  {
    var r := new Buffer(buf);
    while r.data != []
      invariant FindOption(r.data, kind) == FindOption(buf, kind)
      decreases |r.data|
    {
      var len := DecodeVlu(r);
      var thisKind := r.ReadU8();
      if len == 0 {
        return OutOfRange;
      }
      if kind == thisKind {
        return if len - 1 <= |r.data| then Found(r.data[..len - 1]) else OutOfRange;
      }
      r.Next(len - 1);
    }
    return Missing;
  }

  method ReadVluOption(buf: Bytes, kind: byte, default: nat) returns (value: Option<nat>)
    ensures value == FindVluOption(buf, kind, default)
  {
    var r := new Buffer(buf);
    while r.data != []
      invariant FindVluOption(r.data, kind, default) == FindVluOption(buf, kind, default)
      decreases |r.data|
    {
      var len := DecodeVlu(r);
      var thisKind := r.ReadU8();
      if kind == thisKind {
        var v := DecodeVlu(r);
        return Some(v);
      }
      if len == 0 {
        return None;
      }
      r.Next(len - 1);
    }
    return Some(default);
  }
}
