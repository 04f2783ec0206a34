/** The command layer of a net stream: encode_msg, decode_msg, and commands across the flow protocol. */
module NetStreams {
  import opened Amf
  import opened AmfSizes
  import opened ByteBuffers
  import opened ChunkCodecs
  import opened Protocol
  import opened Vlus

  const REQ_SIGNATURE: Bytes := [0x07, 0x00, 0x54, 0x43, 0x04, 0xFA, 0x89, 0x00]
  const RES_SIGNATURE: Bytes := [0x05, 0x00, 0x54, 0x43, 0x04, 0x00]

  const MSG_CALL: byte := 0x14       // AMF with handler
  const MSG_CALL_LONG: byte := 0x11  // the same behind one more byte
  const MSG_DATA: byte := 0x0F

  datatype Command = Command(name: Bytes, param: Value)

  /** What encode_msg writes around the bytes of the parameter. */
  function CommandBytes(name: Bytes, param: Bytes): Bytes {
    [MSG_CALL] + (U32(0) + ([0x02] + (StringBytes(name) + ([0x00] + (ZERO + ([0x05] + param))))))
  }

  function TakeTypedString(b: Bytes): Option<Parsed<Bytes>> {
    var kind := TakeU8(b);
    if kind.value != 0x02 then None else Some(TakeString(kind.rest))
  }

  function TakeTypedNumber(b: Bytes): Option<Parsed<Double>> {
    var kind := TakeU8(b);
    if kind.value != 0x00 then None else Some(TakeNumber(kind.rest))
  }

  function WithParam(name: Bytes, b: Bytes): Option<Command> {
    var v := TakeAmf(b);
    if v.None? then None else Some(Command(name, v.value.value))
  }

  /** The callback number is dropped, and so is one null in front of the parameter. */
  function TakeCall(b: Bytes): Option<Command> {
    var name := TakeTypedString(b);
    if name.None? then None
    else
      var callback := TakeTypedNumber(name.value.rest);
      if callback.None? || callback.value.rest == [] then None
      else
        var rest := callback.value.rest;
        WithParam(name.value.value, if rest[0] == 0x05 then rest[1..] else rest)
  }

  function TakeData(b: Bytes): Option<Command> {
    var name := TakeTypedString(b);
    if name.None? then None else WithParam(name.value.value, name.value.rest)
  }

  /** None is a panic; an unknown message type gives the empty command. */
  function TakeCommand(buf: Bytes): Option<Command> {
    var kind := TakeU8(buf);
    if kind.value == MSG_CALL_LONG then TakeCall(Skip(kind.rest, 5))
    else if kind.value == MSG_CALL then TakeCall(Skip(kind.rest, 4))
    else if kind.value == MSG_DATA then TakeData(Skip(kind.rest, 5))
    else Some(Command([], Null))
  }

  lemma TypedString(name: Bytes, rest: Bytes)
    requires |name| < U16_LIMIT
    ensures TakeTypedString([0x02] + (StringBytes(name) + rest)) == Some(Parsed(name, rest))
  {
    StringRoundTrip(name, rest);
    assert ([0x02] + (StringBytes(name) + rest))[1..] == StringBytes(name) + rest;
  }

  lemma TypedNumber(n: Double, rest: Bytes)
    ensures TakeTypedNumber([0x00] + (n + rest)) == Some(Parsed(n, rest))
  {
    assert ([0x00] + (n + rest))[1..] == n + rest;
    assert (n + rest)[..8] == n && (n + rest)[8..] == rest;
  }

  lemma CallReadsBack(name: Bytes, param: Bytes)
    requires |name| < U16_LIMIT
    ensures TakeCommand(CommandBytes(name, param)) == WithParam(name, param)
  {
    hide StringBytes, TakeTypedString, TakeTypedNumber, WithParam, TakeData;
    var tail := [0x00] + (ZERO + ([0x05] + param));
    var head := [0x02] + (StringBytes(name) + tail);
    assert CommandBytes(name, param)[1..] == U32(0) + head;
    assert (U32(0) + head)[4..] == head;
    TypedString(name, tail);
    TypedNumber(ZERO, [0x05] + param);
    assert ([0x05] + param)[1..] == param;
  }

  lemma NamesFit(buf: Bytes)
    requires TakeU8(buf).value == MSG_CALL && TakeCommand(buf).Some?
    ensures |TakeCommand(buf).value.name| < U16_LIMIT && Readable(TakeCommand(buf).value.param)
  {
    hide TakeAmf, TakeString;
    var b := Skip(TakeU8(buf).rest, 4);
    StringFits(TakeU8(b).rest);
    var rest := TakeTypedNumber(TakeTypedString(b).value.rest).value.rest;
    ReadReadable(if rest[0] == 0x05 then rest[1..] else rest);
  }

  /** A call may come behind any four bytes, with any callback number, and without the null. */
  lemma CallWithoutNull(head: Bytes, name: Bytes, callback: Double, param: Bytes)
    requires |head| == 4 && |name| < U16_LIMIT && param != [] && param[0] != 0x05
    ensures TakeCommand([0x14] + (head + ([0x02] + (StringBytes(name) + ([0x00] + (callback + param))))))
         == WithParam(name, param)
  {
    hide StringBytes, TakeTypedString, TakeTypedNumber, WithParam, TakeData;
    var tail := [0x00] + (callback + param);
    var call := [0x02] + (StringBytes(name) + tail);
    var buf := [0x14] + (head + call);
    assert buf[1..] == head + call && (head + call)[4..] == call;
    TypedString(name, tail);
    TypedNumber(callback, param);
  }

  /** A call of type 0x11 is one of type 0x14 with one more byte in front. */
  lemma LongCall(extra: byte, buf: Bytes)
    ensures TakeCommand([0x11, extra] + buf) == TakeCommand([0x14] + buf)
  {
    hide TakeCall, TakeData;
    assert ([0x11, extra] + buf)[1..] == [extra] + buf;
    assert ([0x14] + buf)[1..] == buf;
    assert Skip([extra] + buf, 5) == Skip(buf, 4);
  }

  /** A data message carries name and parameter behind five bytes, without a callback number. */
  lemma DataMessage(head: Bytes, name: Bytes, param: Bytes, v: Value)
    requires |head| == 5 && |name| < U16_LIMIT && CommandOk(Command(name, v)) && Writes(v, param)
    ensures TakeCommand([0x0F] + (head + ([0x02] + (StringBytes(name) + param)))) == Some(Command(name, v))
  {
    hide StringBytes, TakeTypedString, WithParam, TakeCall, Writes, Readable, ArraysOk, Objects, TakeAmf;
    var tail := [0x02] + (StringBytes(name) + param);
    var buf := [0x0F] + (head + tail);
    assert buf[1..] == head + tail && (head + tail)[5..] == tail;
    TypedString(name, param);
    ParamReadsBack(name, v, param);
  }

  lemma ParamReadsBack(name: Bytes, v: Value, param: Bytes)
    requires Writes(v, param) && Readable(v) && ArraysOk(v)
    ensures WithParam(name, param) == Some(Command(name, v))
  {
    hide Writes, Readable, ArraysOk, Objects, TakeAmf;
    AmfRoundTrip(v, param, []);
    assert param + [] == param;
  }

  /** Any other type gives the empty command. */
  lemma OtherMessage(buf: Bytes)
    requires buf != [] && buf[0] !in {0x0F, 0x11, 0x14}
    ensures TakeCommand(buf) == Some(Command([], Null))
  {
  }

  predicate CommandOk(c: Command) {
    |c.name| < U16_LIMIT && Readable(c.param) && ArraysOk(c.param)
  }

  /**
   * decode_msg undoes encode_msg if and only if name and parameter can be read back; for a broken array the
   * "only if" is for parameters of fewer than 262144 objects.
   */
  lemma CommandRoundTrip(c: Command, param: Bytes)
    requires Writes(c.param, param)
    ensures CommandOk(c) ==> TakeCommand(CommandBytes(c.name, param)) == Some(c)
    ensures TakeCommand(CommandBytes(c.name, param)) == Some(c) ==> CommandOk(c) || Objects(c.param) >= 0x4_0000
  {
    hide TakeCommand, TakeAmf, Writes, Readable, ArraysOk, Objects;
    var buf := CommandBytes(c.name, param);
    if TakeCommand(buf) == Some(c) {
      NamesFit(buf);
    }
    if |c.name| < U16_LIMIT {
      CallReadsBack(c.name, param);
      AmfRoundTrip(c.param, param, []);
      assert param + [] == param;
      if Readable(c.param) && !ArraysOk(c.param) && Objects(c.param) < 0x4_0000 {
        BrokenNeverReads(c.param, param, []);
      }
    }
  }

  ghost predicate IsEncoded(msg: Bytes, c: Command) {
    exists param: Bytes :: Writes(c.param, param) && msg == CommandBytes(c.name, param)
  }

  method EncodeMsg(name: Bytes, v: Value) returns (buf: Bytes)
    requires Writable(v)
    ensures IsEncoded(buf, Command(name, v))
  {
    hide Writes, StringBytes;
    var w := new Buffer([]);
    w.WriteByte(MSG_CALL);
    w.Write(U32(0));
    w.WriteByte(0x02);
    WriteString(w, name);
    w.WriteByte(0x00);
    w.Write(ZERO);
    w.WriteByte(0x05);
    ghost var param := WriteAmf(w, v);
    buf := w.data;
    assert buf == CommandBytes(name, param);
  }

  method ReadTypedString(r: Buffer) returns (s: Option<Bytes>)
    modifies r
    ensures s.Some? <==> TakeTypedString(old(r.data)).Some?
    ensures s.Some? ==> Parsed(s.value, r.data) == TakeTypedString(old(r.data)).value
  {
    var kind := r.ReadU8();
    if kind != 0x02 {
      return None;
    }
    var v := ReadString(r);
    return Some(v);
  }

  method ReadTypedNumber(r: Buffer) returns (n: Option<Double>)
    modifies r
    ensures n.Some? <==> TakeTypedNumber(old(r.data)).Some?
    ensures n.Some? ==> Parsed(n.value, r.data) == TakeTypedNumber(old(r.data)).value
  {
    var kind := r.ReadU8();
    if kind != 0x00 {
      return None;
    }
    var v := ReadNumber(r);
    return Some(v);
  }

  method DecodeCall(r: Buffer) returns (c: Option<Command>)
    modifies r
    ensures c == TakeCall(old(r.data))
  {
    hide TakeTypedString, TakeTypedNumber, TakeAmf;
    var name := ReadTypedString(r);
    if name.None? {
      return None;
    }
    var callback := ReadTypedNumber(r);
    if callback.None? || r.data == [] {
      return None;
    }
    if r.data[0] == 0x05 {
      r.Next(1);
    }
    var param := ReadAmf(r);
    return if param.None? then None else Some(Command(name.value, param.value));
  }

  method DecodeMsg(buf: Bytes) returns (c: Option<Command>)
    ensures c == TakeCommand(buf)
  {
    hide TakeTypedString, TakeCall, TakeAmf;
    var r := new Buffer(buf);
    var kind := r.ReadU8();
    match kind
    case 0x11 =>
      r.Next(5);
      c := DecodeCall(r);
    case 0x14 =>
      r.Next(4);
      c := DecodeCall(r);
    case 0x0F =>
      r.Next(5);
      var name := ReadTypedString(r);
      if name.None? {
        return None;
      }
      var param := ReadAmf(r);
      c := if param.None? then None else Some(Command(name.value, param.value));
    case _ =>
      c := Some(Command([], Null));
  }

  // ------------------------------------------------------------- end to end

  lemma OneOption(option: Bytes)
    requires 0 < |option| < 128
    ensures OptionList([|option| as byte] + option)
  {
    assert OptionList([]);
    OptionListCons(option, []);
    assert Vlu(|option|) + (option + []) == [|option| as byte] + option;
  }

  /** Both signatures of a net stream are option lists without a related flow of their own. */
  lemma SignaturesOk()
    ensures SignatureOk(Some(REQ_SIGNATURE)) && LacksKind(REQ_SIGNATURE, OPTION_RELATED_FLOW)
    ensures SignatureOk(Some(RES_SIGNATURE)) && LacksKind(RES_SIGNATURE, OPTION_RELATED_FLOW)
  {
    OneOption(REQ_SIGNATURE[1..]);
    OneOption(RES_SIGNATURE[1..]);
  }

  /** The message decodes to the command, exactly when the command can be read back. */
  ghost predicate DecodesTo(msg: Bytes, c: Command) {
    && (CommandOk(c) ==> TakeCommand(msg) == Some(c))
    && (TakeCommand(msg) == Some(c) ==> CommandOk(c) || Objects(c.param) >= 0x4_0000)
  }

  lemma EncodedReadsBack(msg: Bytes, c: Command)
    requires IsEncoded(msg, c)
    ensures msg != [] && DecodesTo(msg, c)
  {
    hide TakeCommand, Writes, CommandOk, Objects;
    var param: Bytes :| Writes(c.param, param) && msg == CommandBytes(c.name, param);
    CommandRoundTrip(c, param);
  }

  ghost predicate AllEncoded(msgs: seq<Bytes>, commands: seq<Command>) {
    |msgs| == |commands| && forall i :: 0 <= i < |msgs| ==> IsEncoded(msgs[i], commands[i])
  }

  ghost predicate DecodeToPrefix(msgs: seq<Bytes>, commands: seq<Command>) {
    |msgs| <= |commands| && forall i :: 0 <= i < |msgs| ==> DecodesTo(msgs[i], commands[i])
  }

  /**
   * Over every run of the flow protocol the peer gets exactly the encoded commands, from the first on, and
   * each of them decodes to the command that was sent if and only if that command can be read back.
   */
  lemma CommandsArriveInOrder(link: Link, states: seq<Sys>, events: seq<Event>, commands: seq<Command>)
    requires LinkOk(link) && Run(link, states, events)
    requires AllEncoded(states[|events|].sent, commands)
    ensures states[|events|].delivered <= states[|events|].sent
    ensures DecodeToPrefix(states[|events|].delivered, commands)
  {
    hide LinkOk, Next, IsEncoded, DecodesTo, NonEmpty;
    var s := states[|events|];
    DeliveredInOrder(link, states, events);
    forall i | 0 <= i < |s.sent|
      ensures s.sent[i] != [] && DecodesTo(s.sent[i], commands[i])
    {
      EncodedReadsBack(s.sent[i], commands[i]);
    }
    NonEmptyExactly(s.sent);
  }
}
