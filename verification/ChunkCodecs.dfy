/** User Data and Range Ack chunks (sections 2.3.11 and 2.3.14 of RFC 7016), written and read back. */
module ChunkCodecs {
  import opened ByteBuffers
  import opened Fragments
  import opened Ranges
  import opened RecvFlows
  import opened Vlus

  const OPTION_RELATED_FLOW: byte := 0x0a
  const UINT_LIMIT := 0x1_0000_0000_0000_0000

  datatype UserData = UserData(frag: FragCtrl, flowid: nat, seqNum: nat, fsnOffset: nat,
                               data: Bytes, options: Option<Bytes>, abandon: bool, final: bool)

  datatype RangeAck = RangeAck(flowid: nat, bufAvail: nat, cumAck: nat, ranges: seq<Range>)

  // --------------------------------------------------------------- user data

  function Flags(m: UserData): byte {
    m.frag * 16 + Flag(m.options.Some?, 128) + Flag(m.abandon, 2) + Flag(m.final, 1)
  }

  function OptionBytes(options: Option<Bytes>): Bytes {
    match options
    case None => []
    case Some(o) => o
  }

  function UserDataBytes(m: UserData): Bytes {
    [Flags(m)] + (Vlu(m.flowid) + (Vlu(m.seqNum) + (Vlu(m.fsnOffset) + (OptionBytes(m.options) + m.data))))
  }

  function TakeUserData(b: Bytes): UserData {
    var flags := TakeU8(b);
    var flowid := TakeVlu(flags.rest);
    var seqNum := TakeVlu(flowid.rest);
    var fsnOffset := TakeVlu(seqNum.rest);
    var present := flags.value >= 128;
    var options := if present then TakeOptions(fsnOffset.rest) else Parsed([], fsnOffset.rest);
    UserData(flags.value / 16 % 4, flowid.value, seqNum.value, fsnOffset.value,
             options.rest, if present then Some(options.value) else None,
             flags.value / 2 % 2 == 1, flags.value % 2 == 1)
  }

  predicate Terminated(options: Bytes) {
    options != [] && options[|options| - 1] == 0 && OptionList(options[..|options| - 1])
  }

  /** Everything in front of the options survives, whatever follows it. */
  lemma UserDataHeader(m: UserData, tail: Bytes)
    requires tail == OptionBytes(m.options) + m.data
    ensures TakeUserData(UserDataBytes(m)) ==
      UserData(m.frag, m.flowid, m.seqNum, m.fsnOffset,
               if m.options.Some? then TakeOptions(tail).rest else tail,
               if m.options.Some? then Some(TakeOptions(tail).value) else None,
               m.abandon, m.final)
  {
    hide Vlu, TakeVlu;
    var ids := Vlu(m.flowid) + (Vlu(m.seqNum) + (Vlu(m.fsnOffset) + tail));
    assert ([Flags(m)] + ids)[1..] == ids;
    VluRoundTrip(m.flowid, Vlu(m.seqNum) + (Vlu(m.fsnOffset) + tail));
    VluRoundTrip(m.seqNum, Vlu(m.fsnOffset) + tail);
    VluRoundTrip(m.fsnOffset, tail);
  }

  /** A user data chunk with a terminated option list, or none, is read back as it was written. */
  lemma UserDataRoundTrip(m: UserData)
    requires m.options.Some? ==> Terminated(m.options.value)
    ensures TakeUserData(UserDataBytes(m)) == m
  {
    hide UserDataBytes, TakeUserData, TakeOptions, OptionList;
    UserDataHeader(m, OptionBytes(m.options) + m.data);
    match m.options
    case None =>
      assert [] + m.data == m.data;
    case Some(o) =>
      assert o[..|o| - 1] + [0] == o;
      OptionsRoundTrip(o[..|o| - 1], m.data);
  }

  /** With numbers of one byte each: flags, flow id, sequence number, offset, options, data. */
  lemma UserDataLayout(m: UserData)
    requires m.flowid < 128 && m.seqNum < 128 && m.fsnOffset < 128
    ensures var b := UserDataBytes(m);
      && b[1..4] == [m.flowid, m.seqNum, m.fsnOffset] && b[4..] == OptionBytes(m.options) + m.data
      && (b[0] >= 0x80 <==> m.options.Some?) && b[0] / 4 % 4 == 0 && b[0] / 64 % 2 == 0
      && (b[0] / 16 % 4 == 0 <==> m.frag == FC_WHOLE) && (b[0] / 16 % 4 == 1 <==> m.frag == FC_BEGIN)
      && (b[0] / 16 % 4 == 2 <==> m.frag == FC_END) && (b[0] / 16 % 4 == 3 <==> m.frag == FC_MIDDLE)
      && (b[0] / 2 % 2 == 1 <==> m.abandon) && (b[0] % 2 == 1 <==> m.final)
  {
    var flags, ids := Flags(m), [m.flowid as byte, m.seqNum, m.fsnOffset];
    assert UserDataBytes(m) == [flags] + ids + (OptionBytes(m.options) + m.data);
  }

  // ------------------------------------------- the options of the first chunk

  function RelatedFlowOption(relFlowid: nat): Bytes {
    if relFlowid == 0 then [] else Vlu(2) + [OPTION_RELATED_FLOW] + Vlu(relFlowid)
  }

  /** The length prefix takes the size of the flow id for one byte, as get_vlu_size does. */
  function FlowOptions(signature: Option<Bytes>, relFlowid: nat): Option<Bytes> {
    var list := OptionBytes(signature) + RelatedFlowOption(relFlowid);
    if list == [] then None else Some(list + [0])
  }

  predicate SignatureOk(signature: Option<Bytes>) {
    OptionList(OptionBytes(signature))
  }

  /** The signature comes first, then the related flow as a two-byte option of type ten, then the terminator. */
  lemma FlowOptionsLayout(signature: Bytes, relFlowid: nat)
    requires relFlowid < 128
    ensures FlowOptions(None, 0) == None && FlowOptions(Some([]), 0) == None
    ensures signature != [] || relFlowid != 0 ==>
      FlowOptions(Some(signature), relFlowid)
        == Some(signature + if relFlowid == 0 then [0] else [2, 10, relFlowid, 0])
    ensures relFlowid != 0 ==> FlowOptions(None, relFlowid) == Some([2, 10, relFlowid, 0])
  {
    var related := RelatedFlowOption(relFlowid);
    assert relFlowid != 0 ==> related == [2, 10, relFlowid];
    assert relFlowid != 0 ==> signature + related + [0] == signature + [2, 10, relFlowid, 0];
    assert relFlowid != 0 ==> [] + related + [0] == [2, 10, relFlowid, 0];
    assert signature + [] + [0] == signature + [0];
  }

  lemma FlowOptionsTerminated(signature: Option<Bytes>, relFlowid: nat)
    requires SignatureOk(signature) && relFlowid < 128
    ensures FlowOptions(signature, relFlowid).Some? ==> Terminated(FlowOptions(signature, relFlowid).value)
  {
    var sig, related := OptionBytes(signature), RelatedFlowOption(relFlowid);
    assert OptionList([]);
    if relFlowid != 0 {
      OptionListCons([OPTION_RELATED_FLOW, relFlowid], []);
      assert related == Vlu(2) + ([OPTION_RELATED_FLOW, relFlowid] + []);
    }
    OptionListAppend(sig, related);
    assert (sig + related + [0])[..|sig + related|] == sig + related;
  }

  lemma LongRelatedFlow(relFlowid: nat, data: Bytes)
    requires relFlowid >= 128 && data != []
    ensures TakeOptions(RelatedFlowOption(relFlowid) + [0] + data).rest != data
  {
    hide Vlu, TakeVlu;
    LongVlu(relFlowid);
    var v := Vlu(relFlowid);
    var tail := v[1..] + ([0] + data);
    assert RelatedFlowOption(relFlowid) + [0] + data == Vlu(2) + ([OPTION_RELATED_FLOW, v[0]] + tail);
    TakeOptionsStep([OPTION_RELATED_FLOW, v[0]], tail);
    LongVluTail(relFlowid, [0] + data);
    var len := TakeVlu(tail);
    assert len.rest == [0] + data;
    if len.value > 0 {
      var option := TakeBytes(len.rest, len.value);
      assert |option.rest| <= |data|;
      assert option.rest != [] ==> |TakeOptions(option.rest).rest| < |option.rest|;
    }
  }

  lemma RelatedWritten(relFlowid: nat)
    requires relFlowid != 0
    ensures RelatedFlowOption(relFlowid) != []
  {
  }

  /** The payload of the first chunk survives its options exactly for related flow ids below 128. */
  lemma FirstChunkSurvives(m: UserData, signature: Option<Bytes>, relFlowid: nat)
    requires SignatureOk(signature) && m.data != [] && m.options == FlowOptions(signature, relFlowid)
    ensures TakeUserData(UserDataBytes(m)).data == m.data <==> relFlowid < 128
    ensures relFlowid < 128 ==> TakeUserData(UserDataBytes(m)) == m
  {
    hide UserDataBytes, TakeUserData, TakeOptions, OptionList, Terminated, RelatedFlowOption;
    if relFlowid < 128 {
      FlowOptionsTerminated(signature, relFlowid);
      UserDataRoundTrip(m);
    } else {
      var sig, related := OptionBytes(signature), RelatedFlowOption(relFlowid);
      RelatedWritten(relFlowid);
      var tail := OptionBytes(m.options) + m.data;
      assert tail == sig + (related + [0] + m.data);
      UserDataHeader(m, tail);
      OptionsSkipList(sig, related + [0] + m.data);
      LongRelatedFlow(relFlowid, m.data);
    }
  }

  /** No option of the list has the given type. */
  predicate LacksKind(list: Bytes, kind: byte)
    requires OptionList(list)
    decreases |list|
  {
    list == [] ||
    var p := TakeVlu(list);
    p.rest[0] != kind && LacksKind(p.rest[p.value..], kind)
  }

  lemma FirstLacking(list: Bytes, kind: byte) returns (option: Bytes, tail: Bytes)
    requires OptionList(list) && LacksKind(list, kind) && list != []
    ensures list == Vlu(|option|) + (option + tail) && option != [] && option[0] != kind
    ensures OptionList(tail) && LacksKind(tail, kind) && |tail| < |list|
  {
    var p := TakeVlu(list);
    option, tail := p.rest[..p.value], p.rest[p.value..];
    assert option + tail == p.rest;
  }

  lemma FindSkipsOption(option: Bytes, x: Bytes, kind: byte, default: nat)
    requires option != [] && option[0] != kind
    ensures FindVluOption(Vlu(|option|) + (option + x), kind, default) == FindVluOption(x, kind, default)
  {
    hide Vlu, TakeVlu;
    VluRoundTrip(|option|, option + x);
    assert (option + x)[1..][|option| - 1..] == x;
  }

  lemma {:induction false} FindSkipsList(list: Bytes, x: Bytes, kind: byte, default: nat)
    requires OptionList(list) && LacksKind(list, kind)
    ensures FindVluOption(list + x, kind, default) == FindVluOption(x, kind, default)
    decreases |list|
  {
    hide FindVluOption, Vlu, TakeVlu;
    if list == [] {
      assert list + x == x;
    } else {
      var option, tail := FirstLacking(list, kind);
      assert list + x == Vlu(|option|) + (option + (tail + x));
      FindSkipsOption(option, tail + x, kind, default);
      FindSkipsList(tail, x, kind, default);
    }
  }

  /** The search passes every option of another type, and returns the data of the first one of its own. */
  lemma {:induction false} FirstOptionFound(list: Bytes, kind: byte, data: Bytes, rest: Bytes)
    requires OptionList(list) && LacksKind(list, kind)
    ensures FindOption(list, kind) == Missing
    ensures FindOption(list + (Vlu(1 + |data|) + ([kind] + data + rest)), kind) == Found(data)
    decreases |list|
  {
    hide FindOption, Vlu, TakeVlu;
    var x := Vlu(1 + |data|) + ([kind] + data + rest);
    if list == [] {
      assert list + x == x;
      assert [kind] + data + rest == ([kind] + data) + rest && ([kind] + data)[1..] == data;
      FindHere([kind] + data, rest);
      NothingFound(kind);
    } else {
      var option, tail := FirstLacking(list, kind);
      assert list + x == Vlu(|option|) + (option + (tail + x));
      FindBehind(option, tail + x, kind);
      FindBehind(option, tail, kind);
      FirstOptionFound(tail, kind, data, rest);
    }
  }

  lemma NothingFound(kind: byte)
    ensures FindOption([], kind) == Missing
  {
  }

  lemma ZeroTerminator()
    ensures Vlu(0) == [0]
  {
  }

  /** The peer finds the related flow id behind any signature that has no such option of its own. */
  lemma RelatedFlowFound(signature: Option<Bytes>, relFlowid: nat, default: nat)
    requires SignatureOk(signature) && LacksKind(OptionBytes(signature), OPTION_RELATED_FLOW)
    ensures relFlowid > 0 ==>
      FindVluOption(FlowOptions(signature, relFlowid).value, OPTION_RELATED_FLOW, default) == Some(relFlowid)
    ensures relFlowid == 0 && FlowOptions(signature, 0).Some? ==>
      FindVluOption(FlowOptions(signature, 0).value, OPTION_RELATED_FLOW, default) == None
  {
    hide Vlu, TakeVlu;
    var sig, related := OptionBytes(signature), RelatedFlowOption(relFlowid);
    assert sig + related + [0] == sig + (related + [0]);
    FindSkipsList(sig, related + [0], OPTION_RELATED_FLOW, default);
    if relFlowid > 0 {
      var tail := [OPTION_RELATED_FLOW] + (Vlu(relFlowid) + [0]);
      assert related + [0] == Vlu(2) + tail;
      VluRoundTrip(2, tail);
      assert tail[1..] == Vlu(relFlowid) + [0];
      VluRoundTrip(relFlowid, [0]);
    } else {
      ZeroTerminator();
      assert related + [0] == Vlu(0) + [];
      VluRoundTrip(0, []);
    }
  }

  // --------------------------------------------------------------- range ack

  /** No gap subtraction wraps: every range lies beyond the cursor with a hole in between. */
  predicate GapsFit(cursor: nat, ranges: seq<Range>)
    decreases |ranges|
  {
    ranges == [] ||
    (ranges[0].pos > cursor && ranges[0].len > 0 && GapsFit(ranges[0].End(), ranges[1..]))
  }

  /** Unsigned subtraction of the source's 64-bit integers. */
  function Minus(a: nat, b: nat): nat {
    if a >= b then a - b else (UINT_LIMIT - (b - a) % UINT_LIMIT) % UINT_LIMIT
  }

  function GapBytes(cursor: nat, ranges: seq<Range>): Bytes
    decreases |ranges|
  {
    if ranges == [] then []
    else
      Vlu(Minus(ranges[0].pos, cursor + 1))
      + (Vlu(Minus(ranges[0].len, 1)) + GapBytes(ranges[0].End(), ranges[1..]))
  }

  function RangeAckBytes(a: RangeAck): Bytes {
    Vlu(a.flowid) + (Vlu(a.bufAvail / 1024) + (Vlu(a.cumAck) + GapBytes(a.cumAck + 1, a.ranges)))
  }

  function TakeGaps(cursor: nat, b: Bytes): seq<Range>
    decreases |b|
  {
    if b == [] then []
    else
      var gap := TakeVlu(b);
      var len := TakeVlu(gap.rest);
      var r := Range(cursor + gap.value + 1, len.value + 1);
      [r] + TakeGaps(r.End(), len.rest)
  }

  function TakeRangeAck(b: Bytes): RangeAck {
    var flowid := TakeVlu(b);
    var bufAvail := TakeVlu(flowid.rest);
    var cumAck := TakeVlu(bufAvail.rest);
    RangeAck(flowid.value, bufAvail.value * 1024, cumAck.value, TakeGaps(cumAck.value + 1, cumAck.rest))
  }

  lemma {:induction false} GapsRoundTrip(cursor: nat, ranges: seq<Range>)
    requires GapsFit(cursor, ranges)
    ensures TakeGaps(cursor, GapBytes(cursor, ranges)) == ranges
    decreases |ranges|
  {
    if ranges != [] {
      hide Vlu, TakeVlu;
      var rest := GapBytes(ranges[0].End(), ranges[1..]);
      VluRoundTrip(ranges[0].pos - cursor - 1, Vlu(ranges[0].len - 1) + rest);
      VluRoundTrip(ranges[0].len - 1, rest);
      GapsRoundTrip(ranges[0].End(), ranges[1..]);
    }
  }

  /** The number of missing and of received numbers, one less each, alternate behind the cumulative ack. */
  lemma GapsLayout(cursor: nat, first: Range, rest: seq<Range>, missing: nat)
    requires first.pos == cursor + missing && 1 <= missing <= 128 && 1 <= first.len <= 128
    ensures GapBytes(cursor, [first] + rest) == [missing - 1, first.len - 1] + GapBytes(first.End(), rest)
  {
    hide Vlu;
    var gap, len, tail := missing - 1, first.len - 1, GapBytes(first.End(), rest);
    assert ([first] + rest)[1..] == rest && ([first] + rest)[0] == first;
    OneByteVlu(gap);
    OneByteVlu(len);
    assert GapBytes(cursor, [first] + rest) == Vlu(gap) + (Vlu(len) + tail);
    assert [gap as byte] + ([len as byte] + tail) == [gap, len] + tail;
  }

  /** Flow id, free buffer in blocks of 1024 bytes, cumulative ack; the first number missing is the one behind it. */
  lemma RangeAckLayout(a: RangeAck)
    requires a.flowid < 128 && a.bufAvail < 128 * 1024 && a.cumAck < 128
    ensures RangeAckBytes(a) == [a.flowid, a.bufAvail / 1024, a.cumAck] + GapBytes(a.cumAck + 1, a.ranges)
  {
    hide GapBytes;
    var gaps := GapBytes(a.cumAck + 1, a.ranges);
    var blocks := a.bufAvail / 1024;
    assert blocks < 128;
    assert RangeAckBytes(a) == [a.flowid as byte] + ([blocks as byte] + ([a.cumAck as byte] + gaps));
  }

  lemma {:induction false} NormalGapsFit(cursor: nat, ranges: seq<Range>)
    requires Normal(ranges) && (ranges != [] ==> ranges[0].pos > cursor)
    ensures GapsFit(cursor, ranges)
    decreases |ranges|
  {
    if ranges != [] {
      NormalTail(ranges);
      NormalGapsFit(ranges[0].End(), ranges[1..]);
    }
  }

  /** From every state whose indexes agree, the ack can be encoded without a subtraction wrapping. */
  lemma AckFits(s: RecvState)
    requires Agreement(s)
    ensures GapsFit(s.lastOrdered + 1, AckOf(s).ranges)
  {
    AckRangesMatch(s);
    NormalGapsFit(s.lastOrdered + 1, AckOf(s).ranges);
  }

  lemma {:induction false} DecodedGaps(cursor: nat, b: Bytes)
    ensures GapsFit(cursor, TakeGaps(cursor, b)) && Normal(TakeGaps(cursor, b))
    ensures TakeGaps(cursor, b) != [] ==> TakeGaps(cursor, b)[0].pos > cursor
    decreases |b|
  {
    if b != [] {
      var r := TakeGaps(cursor, b)[0];
      var rest := TakeVlu(TakeVlu(b).rest).rest;
      DecodedGaps(r.End(), rest);
      NormalCons(r, TakeGaps(r.End(), rest));
      assert TakeGaps(cursor, b)[1..] == TakeGaps(r.End(), rest);
    }
  }

  /** Whatever bytes arrive, the decoded ranges are in normal form and lie beyond the cumulative ack. */
  lemma DecodedAckNormal(b: Bytes)
    ensures Normal(TakeRangeAck(b).ranges) && GapsFit(TakeRangeAck(b).cumAck + 1, TakeRangeAck(b).ranges)
  {
    DecodedGaps(TakeRangeAck(b).cumAck + 1, TakeVlu(TakeVlu(TakeVlu(b).rest).rest).rest);
  }

  /**
   * Decoding an ack returns what was encoded, with the free buffer rounded down to a 1024-byte block, if and
   * only if no gap subtraction wraps.
   */
  lemma RangeAckRoundTrip(a: RangeAck)
    ensures TakeRangeAck(RangeAckBytes(a)) == a.(bufAvail := a.bufAvail - a.bufAvail % 1024)
      <==> GapsFit(a.cumAck + 1, a.ranges)
  {
    hide Vlu, TakeVlu, GapBytes, TakeGaps, GapsFit, Normal;
    var gaps := GapBytes(a.cumAck + 1, a.ranges);
    VluRoundTrip(a.flowid, Vlu(a.bufAvail / 1024) + (Vlu(a.cumAck) + gaps));
    VluRoundTrip(a.bufAvail / 1024, Vlu(a.cumAck) + gaps);
    VluRoundTrip(a.cumAck, gaps);
    if GapsFit(a.cumAck + 1, a.ranges) {
      GapsRoundTrip(a.cumAck + 1, a.ranges);
    }
    DecodedGaps(a.cumAck + 1, gaps);
  }

  // ---------------------------------------------------------------- methods

  method SendUserdata(m: UserData) returns (chunk: Bytes)
    ensures chunk == UserDataBytes(m)
  {
    hide Vlu;
    var chunkBuf := new Buffer([]);
    var flags := m.frag * 16;
    if m.options.Some? {
      flags := flags + 0x80;
    }
    if m.abandon {
      flags := flags + 0x02;
    }
    if m.final {
      flags := flags + 0x01;
    }
    chunkBuf.WriteByte(flags);
    EncodeVlu(chunkBuf, m.flowid);
    EncodeVlu(chunkBuf, m.seqNum);
    EncodeVlu(chunkBuf, m.fsnOffset);
    if m.options.Some? {
      chunkBuf.Write(m.options.value);
    }
    chunkBuf.Write(m.data);
    chunk := chunkBuf.data;
  }

  method DecodeUserdataChunk(chunk: Bytes) returns (m: UserData)
    ensures m == TakeUserData(chunk)
  {
    hide TakeVlu;
    var r := new Buffer(chunk);
    var flags := r.ReadU8();
    var flowid := DecodeVlu(r);
    var seqNum := DecodeVlu(r);
    var fsnOffset := DecodeVlu(r);
    var options := None;
    if flags >= 0x80 {
      var o := ReadOptions(r);
      options := Some(o);
    }
    m := UserData(flags / 16 % 4, flowid, seqNum, fsnOffset, r.data, options,
                  flags / 2 % 2 == 1, flags % 2 == 1);
  }

  method SendRangeAck(a: RangeAck) returns (chunk: Bytes)
    ensures chunk == RangeAckBytes(a)
  {
    hide Vlu, Minus;
    var chunkBuf := new Buffer([]);
    EncodeVlu(chunkBuf, a.flowid);
    EncodeVlu(chunkBuf, a.bufAvail / 1024);
    EncodeVlu(chunkBuf, a.cumAck);
    var ackCursor: nat := a.cumAck + 1;
    ghost var head := chunkBuf.data;
    assert a.ranges[0..] == a.ranges;
    for i := 0 to |a.ranges|
      invariant fresh(chunkBuf)
      invariant chunkBuf.data + GapBytes(ackCursor, a.ranges[i..]) == head + GapBytes(a.cumAck + 1, a.ranges)
    {
      var rr := a.ranges[i];
      assert a.ranges[i..][0] == rr;
      assert a.ranges[i..][1..] == a.ranges[i + 1..];
      EncodeVlu(chunkBuf, Minus(rr.pos, ackCursor + 1));
      EncodeVlu(chunkBuf, Minus(rr.len, 1));
      ackCursor := rr.End();
    }
    assert a.ranges[|a.ranges|..] == [] && chunkBuf.data + [] == chunkBuf.data;
    chunk := chunkBuf.data;
  }

  method DecodeRangeAckChunk(chunk: Bytes) returns (a: RangeAck)
    ensures a == TakeRangeAck(chunk)
  {
    hide TakeVlu;
    var r := new Buffer(chunk);
    var flowid := DecodeVlu(r);
    var blocks := DecodeVlu(r);
    var cumAck := DecodeVlu(r);
    var ranges := [];
    var ackCursor: nat := cumAck + 1;
    ghost var all := TakeGaps(ackCursor, r.data);
    while r.data != []
      invariant fresh(r) && ranges + TakeGaps(ackCursor, r.data) == all
      decreases |r.data|
    {
      var gap := DecodeVlu(r);
      var len := DecodeVlu(r);
      var pos := ackCursor + gap + 1;
      var rr := MakeRange(pos, pos + (len + 1));
      ranges := ranges + [rr];
      ackCursor := rr.End();
    }
    a := RangeAck(flowid, blocks * 1024, cumAck, ranges);
  }
}
