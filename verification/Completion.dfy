/** Deadlock freedom: how a transfer can always be brought to its end, and when it cannot. */
module Completion {
  import opened ByteBuffers
  import opened ChunkCodecs
  import opened ChunkHeap
  import opened Congestion
  import opened Fragments
  import opened Packets
  import opened Protocol
  import opened Ranges
  import opened RecvFlows
  import opened SendFlows
  import opened Vlus

  // ------------------------------------------------------------- continuations

  predicate AnyInFlight(cs: seq<Chunk>) {
    exists k :: 0 <= k < |cs| && cs[k].inFlight
  }

  /**
   * A timeout needs its alarm, which is sure to be pending only while something is in flight; an ack that no
   * arrival calls for needs the delayed-ack alarm or a probe.
   */
  predicate Prompted(s: Sys, e: Event) {
    && (e.RtxAlarm? ==> s.snd.rtxAlarm && AnyInFlight(s.snd.queue))
    && (e.AckDue? ==> s.rcv.delackAlarm || s.snd.probing)
  }

  ghost predicate Path(link: Link, states: seq<Sys>, events: seq<Event>, prompted: bool)
    requires LinkOk(link)
  {
    && |states| == |events| + 1
    && forall i :: 0 <= i < |events| ==>
         Next(link, states[i], events[i], states[i + 1]) && (prompted ==> Prompted(states[i], events[i]))
  }

  /** Some continuation leads from s to t; a prompted one has only prompted events. */
  ghost predicate Reaches(link: Link, s: Sys, t: Sys, prompted: bool)
    requires LinkOk(link)
  {
    exists states, events :: Path(link, states, events, prompted) && states[0] == s && states[|events|] == t
  }

  lemma ReachesSelf(link: Link, s: Sys)
    requires LinkOk(link)
    ensures Reaches(link, s, s, true)
  {
    hide LinkOk, Next;
    assert Path(link, [s], [], true);
  }

  lemma StepReaches(link: Link, s: Sys, e: Event, t: Sys, prompted: bool)
    requires LinkOk(link) && Inv(link, s) && Next(link, s, e, t) && (prompted ==> Prompted(s, e))
    ensures Reaches(link, s, t, prompted) && Inv(link, t)
  {
    hide LinkOk, Next, Inv, Prompted;
    assert Path(link, [s, t], [e], prompted);
    NextKeepsInv(link, s, e, t);
  }

  lemma PromptedReaches(link: Link, s: Sys, t: Sys, prompted: bool)
    requires LinkOk(link) && Reaches(link, s, t, true)
    ensures Reaches(link, s, t, prompted)
  {
    hide LinkOk, Next, Prompted;
    var p, e :| Path(link, p, e, true) && p[0] == s && p[|e|] == t;
    assert Path(link, p, e, prompted);
  }

  lemma ReachesThen(link: Link, a: Sys, b: Sys, c: Sys, prompted: bool)
    requires LinkOk(link) && Reaches(link, a, b, prompted) && Reaches(link, b, c, prompted)
    ensures Reaches(link, a, c, prompted)
  {
    hide LinkOk, Next, Prompted;
    var p, e :| Path(link, p, e, prompted) && p[0] == a && p[|e|] == b;
    var q, f :| Path(link, q, f, prompted) && q[0] == b && q[|f|] == c;
    var states, events := p + q[1..], e + f;
    forall i | 0 <= i < |events|
      ensures Next(link, states[i], events[i], states[i + 1]) && (prompted ==> Prompted(states[i], events[i]))
    {
      assert states[i] == if i < |e| then p[i] else q[i - |e|];
      assert states[i + 1] == if i < |e| then p[i + 1] else q[i + 1 - |e|];
    }
    assert Path(link, states, events, prompted);
    assert states[|events|] == q[|f|];
  }

  /** A run followed by a continuation is a run. */
  lemma RunReaches(link: Link, states: seq<Sys>, events: seq<Event>, t: Sys, prompted: bool)
    requires LinkOk(link) && Run(link, states, events) && Reaches(link, states[|events|], t, prompted)
    ensures exists states', events' :: Run(link, states', events') && states'[|events'|] == t
  {
    hide LinkOk, Next, Prompted;
    var q, f :| Path(link, q, f, prompted) && q[0] == states[|events|] && q[|f|] == t;
    var states', events' := states + q[1..], events + f;
    forall i | 0 <= i < |events'|
      ensures Next(link, states'[i], events'[i], states'[i + 1])
    {
      assert states'[i] == if i < |events| then states[i] else q[i - |events|];
      assert states'[i + 1] == if i < |events| then states[i + 1] else q[i + 1 - |events|];
    }
    assert Run(link, states', events');
    assert states'[|events'|] == q[|f|];
  }

  // --------------------------------------------------------------- datagrams

  /** Some header that a session may put in front of a chunk; which one does not matter. */
  ghost function SomeHeader(): (h: Header)
    ensures HeaderOk(h)
  {
    assert HeaderOk(Header(false, false, 0, 0, 0));
    var h :| HeaderOk(h);
    h
  }

  ghost function DataDatagram(link: Link, m: UserData): Bytes
    requires link.receiverSid < U32_LIMIT
  {
    DataPacket(link, SomeHeader(), m)
  }

  ghost function AckDatagram(link: Link, a: Ack): Bytes
    requires link.senderSid < U32_LIMIT
  {
    AckPacket(link, SomeHeader(), a)
  }

  /** A packet adds at most 32 bytes to its one chunk. */
  predicate DataShort(m: UserData) {
    |UserDataBytes(m)| + 32 <= MAX_DATAGRAM
  }

  predicate AckShort(link: Link, a: Ack) {
    |RangeAckBytes(WireAck(link, a))| + 32 <= MAX_DATAGRAM
  }

  predicate Sendable(link: Link, data: seq<UserData>) {
    WellMade(data, link.flow) && forall m :: m in data ==> DataShort(m)
  }

  lemma DataDatagramFits(link: Link, m: UserData)
    requires LinkOk(link) && DataShort(m)
    ensures |DataDatagram(link, m)| <= MAX_DATAGRAM
  {
    hide CipherOk, SignatureOk, Packed, Body, UserDataBytes;
    PacketSize(link.cipher, link.dataKey, link.receiverSid, SomeHeader(), RawChunk(CHUNK_USERDATA, UserDataBytes(m)));
  }

  lemma AckDatagramFits(link: Link, a: Ack)
    requires LinkOk(link) && AckShort(link, a)
    ensures |AckDatagram(link, a)| <= MAX_DATAGRAM
  {
    hide CipherOk, SignatureOk, Packed, Body, RangeAckBytes;
    PacketSize(link.cipher, link.ackKey, link.senderSid, SomeHeader(),
               RawChunk(CHUNK_RANGE_ACK, RangeAckBytes(WireAck(link, a))));
  }

  ghost predicate UnderWay(link: Link, data: seq<UserData>, net: set<Bytes>)
    requires link.receiverSid < U32_LIMIT
  {
    forall m :: m in data ==> DataDatagram(link, m) in net
  }

  /** A datagram in the channel brings the ack, its free buffer in whole blocks, and nothing else for the flow. */
  ghost predicate AckUnderWay(link: Link, s: Sys, a: Ack) {
    exists d :: d in s.toSender && AcksIn(link, d) == [Rounded(WireAck(link, a))]
  }

  lemma OnItsWay(link: Link, s: Sys, a: Ack)
    requires LinkOk(link) && GapsFit(a.cumAck + 1, a.ranges) && AckShort(link, a)
    requires AckDatagram(link, a) in s.toSender
    ensures AckUnderWay(link, s, a)
  {
    hide CipherOk, SignatureOk, AckPacket, GapsFit, AcksIn, RangeAckBytes;
    AckArrival(link, SomeHeader(), a);
  }

  ghost function WithData(link: Link, net: set<Bytes>, data: seq<UserData>): set<Bytes>
    requires link.receiverSid < U32_LIMIT
  {
    net + set m | m in data :: DataDatagram(link, m)
  }

  lemma WithDataCarried(link: Link, net: set<Bytes>, data: seq<UserData>)
    requires LinkOk(link) && Sendable(link, data)
    ensures CarriesData(link, net, data, WithData(link, net, data))
    ensures UnderWay(link, data, WithData(link, net, data))
  {
    hide CipherOk, DataPacket, SignatureOk, WellMade, UserDataBytes;
    var after := WithData(link, net, data);
    forall d | d in after && d !in net
      ensures |d| <= MAX_DATAGRAM && exists h, i :: HeaderOk(h) && 0 <= i < |data| && d == DataPacket(link, h, data[i])
    {
      var m :| m in data && d == DataDatagram(link, m);
      var i :| 0 <= i < |data| && data[i] == m;
      DataDatagramFits(link, m);
      assert HeaderOk(SomeHeader()) && d == DataPacket(link, SomeHeader(), data[i]);
    }
  }

  lemma AckCarried(link: Link, net: set<Bytes>, a: Ack)
    requires LinkOk(link) && AckShort(link, a)
    ensures CarriesAcks(link, net, [a], net + {AckDatagram(link, a)})
  {
    hide CipherOk, AckPacket, SignatureOk, AckShort;
    AckDatagramFits(link, a);
    forall d | d in net + {AckDatagram(link, a)} && d !in net
      ensures |d| <= MAX_DATAGRAM && exists h, i :: HeaderOk(h) && 0 <= i < 1 && d == AckPacket(link, h, [a][i])
    {
      assert HeaderOk(SomeHeader()) && d == AckPacket(link, SomeHeader(), [a][0]);
    }
  }

  lemma NothingCarried(link: Link, net: set<Bytes>, data: seq<UserData>, acks: seq<Ack>)
    requires LinkOk(link)
    ensures CarriesData(link, net, data, net) && CarriesAcks(link, net, acks, net)
  {
    hide CipherOk, DataPacket, AckPacket;
  }

  // -------------------------------------------------------- parts of a round

  lemma ReceiveFirst(r: RecvState, ms: seq<UserData>)
    requires ms != []
    ensures ReceiveAll(r, ms).0 == ReceiveAll(ReceiveAll(r, [ms[0]]).0, ms[1..]).0
  {
    hide UserdataStep;
    var u := UserdataStep(r, ms[0].frag, ms[0].seqNum, ms[0].data).0;
    assert [ms[0]][1..] == [];
    assert ReceiveAll(u, []).0 == u;
  }

  lemma OneArrives(link: Link, m: UserData)
    requires LinkOk(link) && Sendable(link, [m])
    ensures DataIn(link, DataDatagram(link, m)) == [m]
  {
    hide CipherOk, DataPacket, SignatureOk, DataIn, FlowOptions, UserDataBytes;
    assert m in [m];
    DataArrival(link, SomeHeader(), m);
  }

  lemma Delivered(link: Link, s: Sys, m: UserData, acks: set<Bytes>) returns (t: Sys)
    requires LinkOk(link) && Inv(link, s) && Sendable(link, [m]) && DataDatagram(link, m) in s.toReceiver
    requires CarriesAcks(link, s.toSender, ReceiveAll(s.rcv, [m]).1, s.toSender + acks)
    ensures Reaches(link, s, t, true) && Inv(link, t)
    ensures t == s.(rcv := ReceiveAll(s.rcv, [m]).0, toSender := s.toSender + acks)
  {
    hide Inv, ReceiveAll, DataIn, AcksIn, Reaches, CarriesData, CarriesAcks, Sendable, CipherOk, SignatureOk,
         DataPacket;
    OneArrives(link, m);
    t := s.(rcv := ReceiveAll(s.rcv, [m]).0, toSender := s.toSender + acks);
    NothingCarried(link, s.toReceiver, [], []);
    StepReaches(link, s, DataArrives(DataDatagram(link, m)), t, true);
  }

  lemma ReceiveOne(r: RecvState, m: UserData)
    ensures var (t, ack) := UserdataStep(r, m.frag, m.seqNum, m.data);
      && ReceiveAll(r, [m]) == (t, if ack.Some? then [ack.value] else [])
      && (ack.Some? ==> ack.value == AckOf(t))
      && (ack.None? ==> t.delackAlarm)
  {
    hide Drained, Accepted, PendingRanges, Covers;
    var (t, ack) := UserdataStep(r, m.frag, m.seqNum, m.data);
    assert [m][1..] == [];
    ReceiveNothing(t);
    if ack.Some? {
      assert [ack.value] + [] == [ack.value];
    }
  }

  /** An arrival is acked at once, or it sets the alarm that lets the receiver ack. */
  lemma Answered(link: Link, s: Sys, m: UserData) returns (t: Sys)
    requires LinkOk(link) && Inv(link, s) && Sendable(link, [m]) && DataDatagram(link, m) in s.toReceiver
    requires AckShort(link, AckOf(ReceiveAll(s.rcv, [m]).0))
    ensures Reaches(link, s, t, true) && Inv(link, t) && Core(t.rcv) == Core(ReceiveAll(s.rcv, [m]).0)
    ensures t == s.(rcv := t.rcv, toSender := s.toSender + {AckDatagram(link, AckOf(t.rcv))})
  {
    hide Inv, ReceiveAll, Reaches, CarriesAcks, Sendable, CipherOk, SignatureOk, DataPacket, AckPacket, UserdataStep,
         AckShort, AckOf;
    var (r, ack) := UserdataStep(s.rcv, m.frag, m.seqNum, m.data);
    ReceiveOne(s.rcv, m);
    if ack.Some? {
      AckCarried(link, s.toSender, AckOf(r));
      t := Delivered(link, s, m, {AckDatagram(link, AckOf(r))});
    } else {
      NothingCarried(link, s.toSender, [], []);
      assert s.toSender + {} == s.toSender;
      var u := Delivered(link, s, m, {});
      t := AckOut(link, u, true);
      AckOfCore(t.rcv, r);
      ReachesThen(link, s, u, t, true);
    }
  }

  lemma AckOfCore(r: RecvState, t: RecvState)
    requires Core(r) == Core(t)
    ensures AckOf(r) == AckOf(t)
  {
    hide PendingRanges;
  }

  /** The channel may deliver data packets under way one after the other, and then the receiver's ack. */
  lemma {:induction false} DeliverAll(link: Link, s: Sys, data: seq<UserData>) returns (t: Sys)
    requires LinkOk(link) && Inv(link, s) && Sendable(link, data) && UnderWay(link, data, s.toReceiver)
    requires data != [] && AckShort(link, AckOf(ReceiveAll(s.rcv, data).0))
    ensures Reaches(link, s, t, true) && Inv(link, t) && Core(t.rcv) == Core(ReceiveAll(s.rcv, data).0)
    ensures t == s.(rcv := t.rcv, toSender := s.toSender + {AckDatagram(link, AckOf(t.rcv))})
    decreases |data|
  {
    hide Inv, ReceiveAll, Reaches, CipherOk, SignatureOk, DataPacket, FlowOptions, AckPacket, CarriesAcks, AckShort,
         AckOf;
    if |data| == 1 {
      assert data == [data[0]];
      t := Answered(link, s, data[0]);
    } else {
      NothingCarried(link, s.toSender, [], ReceiveAll(s.rcv, [data[0]]).1);
      assert s.toSender + {} == s.toSender;
      var u := Delivered(link, s, data[0], {});
      ReceiveFirst(s.rcv, data);
      t := DeliverAll(link, u, data[1..]);
      ReachesThen(link, s, u, t, true);
    }
  }

  /** What is left at the receiver when every whole message has been read. */
  function AfterReading(r: RecvState): RecvState
    decreases |r.ordered|
  {
    var (t, got) := ReadStep(r);
    if got.None? then r else AfterReading(t)
  }

  /** Reading takes whole messages off the ordered buffer, and so only makes room. */
  lemma {:induction false} ReadingMakesRoom(r: RecvState)
    ensures var t := AfterReading(r);
      && t == r.(ordered := t.ordered, orderedBytes := t.orderedBytes) && t.orderedBytes <= r.orderedBytes
      && EndIndex(t.ordered) == |t.ordered| && Available(t) >= Available(r)
    decreases |r.ordered|
  {
    hide EndIndex, SumData, Join;
    if ReadStep(r).1.Some? {
      ReadingMakesRoom(ReadStep(r).0);
    }
  }

  lemma {:induction false} ReadingCore(r: RecvState, t: RecvState)
    requires Core(r) == Core(t)
    ensures Core(AfterReading(r)) == Core(AfterReading(t))
    ensures Available(AfterReading(r)) == Available(AfterReading(t))
    decreases |r.ordered|
  {
    hide EndIndex, SumData, Join;
    if ReadStep(r).1.Some? {
      ReadingCore(ReadStep(r).0, ReadStep(t).0);
    }
  }

  /** The application may read until there is no whole message left. */
  lemma {:induction false} ReadOut(link: Link, s: Sys) returns (t: Sys)
    requires LinkOk(link) && Inv(link, s)
    ensures Reaches(link, s, t, true) && Inv(link, t) && t.rcv == AfterReading(s.rcv)
    ensures t == s.(rcv := t.rcv, taken := t.taken, delivered := t.delivered)
    decreases |s.rcv.ordered|
  {
    hide LinkOk, Inv, Reaches, CarriesData, CarriesAcks, EndIndex, Join, SumData;
    if ReadStep(s.rcv).1.None? {
      t := s;
      ReachesSelf(link, s);
    } else {
      var u := Step(link, s, ReadMessage).sys;
      NothingCarried(link, s.toReceiver, [], []);
      NothingCarried(link, s.toSender, [], []);
      StepReaches(link, s, ReadMessage, u, true);
      t := ReadOut(link, u);
      ReachesThen(link, s, u, t, true);
    }
  }

  /** The receiver acks what it has, and the ack gets through. */
  lemma AckOut(link: Link, s: Sys, prompted: bool) returns (t: Sys)
    requires LinkOk(link) && Inv(link, s) && AckShort(link, AckOf(s.rcv))
    requires prompted ==> s.rcv.delackAlarm || s.snd.probing
    ensures Reaches(link, s, t, prompted) && Inv(link, t) && AckOf(t.rcv) == AckOf(s.rcv)
    ensures t == s.(rcv := AfterAck(s.rcv), toSender := s.toSender + {AckDatagram(link, AckOf(s.rcv))})
  {
    hide Inv, Reaches, CipherOk, SignatureOk, AckPacket, AckOf, CarriesData, AckShort;
    var a := AckOf(s.rcv);
    t := s.(rcv := AfterAck(s.rcv), toSender := s.toSender + {AckDatagram(link, a)});
    NothingCarried(link, s.toReceiver, [], []);
    AckCarried(link, s.toSender, a);
    AckOfCore(t.rcv, s.rcv);
    StepReaches(link, s, AckDue, t, prompted);
  }

  function AckedBy(s: SendState, a: Ack): (SendState, seq<UserData>) {
    RangeAckStep(s, a.bufAvail - a.bufAvail % 1024, a.cumAck, a.ranges)
  }

  lemma AckIn(link: Link, s: Sys, a: Ack) returns (t: Sys)
    requires LinkOk(link) && Inv(link, s) && AckUnderWay(link, s, a)
    requires Sendable(link, AckedBy(s.snd, a).1)
    ensures Reaches(link, s, t, true) && Inv(link, t)
    ensures var (u, data) := AckedBy(s.snd, a);
      t == s.(snd := u, toReceiver := WithData(link, s.toReceiver, data))
  {
    hide Inv, Reaches, CipherOk, SignatureOk, RangeAckStep, CarriesData, CarriesAcks, AcksIn, Sendable;
    var d :| d in s.toSender && AcksIn(link, d) == [Rounded(WireAck(link, a))];
    var (u, data) := AckedBy(s.snd, a);
    t := s.(snd := u, toReceiver := WithData(link, s.toReceiver, data));
    var acks := [Rounded(WireAck(link, a))];
    assert acks[1..] == [];
    AcknowledgeNothing(u);
    assert data + [] == data;
    assert AcknowledgeAll(s.snd, acks) == (u, data);
    WithDataCarried(link, s.toReceiver, data);
    NothingCarried(link, s.toSender, [], []);
    StepReaches(link, s, AckArrives(d), t, true);
  }

  // ------------------------------------------------------- the receiver's room

  predicate AllBefore(n: nat, received: seq<Range>) {
    forall k: nat :: 1 <= k < n ==> Covers(received, k)
  }

  /** A chunk with nothing missing before it makes no other chunk wait. */
  lemma NextChunk(r: RecvState, c: Chunk)
    requires Agreement(r) && !Covers(r.recvRanges, c.seqNum) && c.seqNum >= 1 && AllBefore(c.seqNum, r.recvRanges)
    ensures var t := Drained(Accepted(r, c));
      t.pendingBytes <= r.pendingBytes && |t.pending| <= |r.pending|
  {
    hide Normal, Covers, Added;
    NextIsMissing(r);
    assert c.seqNum == r.lastOrdered + 1;
    var pending := Inserted(r.pending, c);
    assert pending == [c] + r.pending;
    var k := RunLength(pending, r.lastOrdered);
    assert k >= 1 && pending[..k][0] == c;
  }

  lemma NextReceived(r: RecvState, m: UserData)
    requires Agreement(r) && m.seqNum >= 1 && AllBefore(m.seqNum, r.recvRanges)
    ensures var t := UserdataStep(r, m.frag, m.seqNum, m.data).0;
      t.pendingBytes <= r.pendingBytes && |t.pending| <= |r.pending|
  {
    hide Normal, Covers, Added, Drained, Accepted, Agreement;
    if !Covers(r.recvRanges, m.seqNum) {
      var counted := r.(rxPackets := r.rxPackets + 1);
      CoreSuffices(r);
      CoreSuffices(counted);
      NextChunk(counted, NewChunk(m.frag, m.seqNum, m.data));
    }
  }

  /** In front of every message all numbers have been received or come earlier in the list. */
  predicate Gapless(ms: seq<UserData>, received: seq<Range>) {
    forall i, n: nat :: 0 <= i < |ms| && 1 <= n < ms[i].seqNum ==> Covers(received, n) || Names(ms[..i], n)
  }

  lemma GaplessTail(ms: seq<UserData>, received: seq<Range>, after: seq<Range>)
    requires ms != [] && Gapless(ms, received)
    requires forall n: nat :: Covers(received, n) || n == ms[0].seqNum ==> Covers(after, n)
    ensures AllBefore(ms[0].seqNum, received) && Gapless(ms[1..], after)
  {
    hide Covers;
    forall n: nat | 1 <= n < ms[0].seqNum
      ensures Covers(received, n)
    {
      assert ms[..0] == [];
    }
    forall i, n: nat | 0 <= i < |ms| - 1 && 1 <= n < ms[1..][i].seqNum
      ensures Covers(after, n) || Names(ms[1..][..i], n)
    {
      assert ms[1..][i] == ms[i + 1];
      if Names(ms[..i + 1], n) && n != ms[0].seqNum {
        var m :| m in ms[..i + 1] && m.seqNum == n;
        assert ms[..i + 1] == [ms[0]] + ms[1..][..i];
        assert m in ms[1..][..i];
      }
    }
  }

  lemma GaplessPrefix(ms: seq<UserData>, part: seq<UserData>, received: seq<Range>)
    requires Gapless(ms, received) && part <= ms
    ensures Gapless(part, received)
  {
    hide Covers, Names;
    forall i | 0 <= i < |part|
      ensures part[i] == ms[i] && part[..i] == ms[..i]
    {
    }
  }

  /** Chunks that come without gaps leave no more waiting than before. */
  lemma {:induction false} GaplessReceived(r: RecvState, ms: seq<UserData>, stream: seq<Chunk>, start: nat)
    requires ReceiverOk(r, stream, start) && GenuineData(ms, stream) && Gapless(ms, r.recvRanges)
    ensures var t := ReceiveAll(r, ms).0;
      t.pendingBytes <= r.pendingBytes && |t.pending| <= |r.pending|
    decreases |ms|
  {
    hide UserdataStep, ReceiverOk, Covers, Gapless;
    if ms != [] {
      var m := ms[0];
      var u := UserdataStep(r, m.frag, m.seqNum, m.data).0;
      assert m in ms;
      UserdataGenuine(r, m, stream, start);
      GaplessTail(ms, r.recvRanges, u.recvRanges);
      ReceiverAgrees(r, stream, start);
      NextReceived(r, m);
      GaplessReceived(u, ms[1..], stream, start);
    }
  }

  // --------------------------------------------------- what the sender launches

  /** With nothing in flight from position i on, sending launches a run of chunks from there. */
  lemma {:induction false} FreshTrySend(s: SendState, i: nat)
    requires i <= |s.queue| && forall k :: i <= k < |s.queue| ==> !s.queue[k].inFlight
    ensures var (t, sent) := TrySendFrom(s, i);
      && |sent| <= |s.queue| - i && |t.queue| == |s.queue|
      && (forall x :: 0 <= x < |sent| ==> sent[x].seqNum == s.queue[i + x].seqNum)
      && (forall x :: 0 <= x < |sent| ==> sent[x].fsnOffset == Minus(s.queue[i + x].seqNum, s.queue[0].seqNum))
      && (forall k :: 0 <= k < |t.queue| ==> t.queue[k].seqNum == s.queue[k].seqNum)
      && (forall k :: 0 <= k < |t.queue| && t.queue[k].inFlight ==>
            (k < i && s.queue[k].inFlight) || i <= k < i + |sent|)
      && (i < |s.queue| && MaySend(s) ==> sent != [])
    decreases |s.queue| - i
  {
    if i < |s.queue| && MaySend(s) {
      hide MaySend, UserDataOf, Minus;
      SentNumber(s, i);
      FreshTrySend(Transmitted(s, i), i + 1);
    }
  }

  lemma SentNumber(s: SendState, i: nat)
    requires i < |s.queue|
    ensures UserDataOf(s, i).seqNum == s.queue[i].seqNum
    ensures UserDataOf(s, i).fsnOffset == Minus(s.queue[i].seqNum, s.queue[0].seqNum)
  {
  }

  /** The sender has launched exactly these messages: a run from the front of its queue, nothing else in flight. */
  predicate Launches(s: SendState, data: seq<UserData>) {
    && |data| <= |s.queue| && |data| <= 6
    && (forall x :: 0 <= x < |data| ==> data[x].seqNum == s.queue[x].seqNum)
    && (forall x :: 0 <= x < |data| ==> data[x].fsnOffset == Minus(s.queue[x].seqNum, s.queue[0].seqNum))
    && (forall k :: 0 <= k < |s.queue| && s.queue[k].inFlight ==> k < |data|)
  }

  lemma TrySendLaunches(s: SendState)
    requires SendInv(s)
    requires forall k :: 0 <= k < |s.queue| ==> !s.queue[k].inFlight
    ensures Launches(TrySendFrom(s, 0).0, TrySendFrom(s, 0).1)
    ensures s.queue != [] && MaySend(s) ==> TrySendFrom(s, 0).1 != []
  {
    hide TrySendFrom, MaySend, InFlightBytes, Minus;
    FreshTrySend(s, 0);
    TrySendLimits(s, 0);
    TrySendInv(s, 0);
  }

  lemma LaunchedGapless(s: SendState, data: seq<UserData>, last: nat, received: seq<Range>)
    requires Launches(s, data) && Ascending(s.queue) && NothingLost(s.queue, last, received)
    requires forall c :: c in s.queue ==> c.seqNum <= last
    ensures Gapless(data, received)
  {
    hide Covers;
    forall i, n: nat | 0 <= i < |data| && 1 <= n < data[i].seqNum
      ensures Covers(received, n) || Names(data[..i], n)
    {
      assert s.queue[i] in s.queue;
      if HasNumber(s.queue, n) {
        var k :| 0 <= k < |s.queue| && s.queue[k].seqNum == n;
        assert k < i;
        assert data[k] in data[..i] && data[k].seqNum == n;
      }
    }
  }

  /** A timeout launches chunks from the front of the queue, if the window is open at all. */
  lemma AlarmLaunches(s: SendState)
    requires SendInv(s) && ExhaustedIndex(s.queue) == |s.queue|
    ensures var (t, data, _) := AlarmStep(s);
      && Launches(t, data) && |t.queue| == |s.queue|
      && t.closed == s.closed && t.probing == s.probing && t.recvWnd == s.recvWnd
      && (s.queue != [] && s.recvWnd > 0 ==> data != [])
  {
    hide SendInv, TrySendFrom, ExhaustedIndex, InFlightCount, InFlightBytes, MaySend, Launches, Ascending;
    ExhaustedWithin(s.queue);
    var anyLoss := InFlightCount(s.queue) > 0;
    LoseFirstInv(s, |s.queue|);
    LoseKeepsWindow(s);
    ResetInv(LoseFirst(s, |s.queue|), anyLoss);
    var u := LoseFirst(s, |s.queue|).(window := TimedOut(s.window, anyLoss), dataPackets := 0);
    assert s.queue[|s.queue|..] == [];
    assert u.queue == Grounded(s.queue[..|s.queue|]);
    TrySendLaunches(u);
    TrySendEffect(u, 0);
    if s.recvWnd > 0 {
      Idle(u);
    }
  }

  lemma {:induction false} SplitLength(cs: seq<Chunk>, acked: seq<Range>)
    ensures |Kept(cs, acked)| + |Removed(cs, acked)| == |cs|
  {
    if cs != [] {
      hide Covers;
      SplitLength(cs[..|cs| - 1], acked);
    }
  }

  lemma IdleUnmarked(cs: seq<Chunk>, maxTsn: nat)
    requires forall k :: 0 <= k < |cs| ==> !cs[k].inFlight
    ensures NakAll(cs, maxTsn) == cs
  {
  }

  /** Some chunk of the queue has reached the receiver, so that its ack brings news. */
  predicate HasReceived(queue: seq<Chunk>, received: seq<Range>) {
    exists c :: c in queue && Covers(received, c.seqNum)
  }

  /** The receiver's present ack acknowledges every chunk it has received. */
  lemma FreshAckRemoves(s: SendState, r: RecvState, config: FlowConfig, stream: seq<Chunk>)
    requires SenderOk(s, config, stream, r.recvRanges) && Agreement(r)
    ensures var acked := AckedRanges(s, AckOf(r).cumAck, AckOf(r).ranges);
      && (forall c :: c in s.queue && Covers(r.recvRanges, c.seqNum) ==> Covers(acked, c.seqNum))
      && (HasReceived(s.queue, r.recvRanges) ==>
            Removed(s.queue, acked) != [] && |Kept(s.queue, acked)| < |s.queue|)
  {
    hide Covers, Kept, Removed, AckedRanges, AckOf, Agreement, AllGenuine, PlainAll, Normal, NothingLost;
    var a := AckOf(r);
    var acked := AckedRanges(s, a.cumAck, a.ranges);
    forall c | c in s.queue
      ensures Covers(r.recvRanges, c.seqNum) ==> Covers(acked, c.seqNum)
    {
      assert ChunkOk(c, s.lastSeqnum, s.tsn);
      AckNamesAll(r, c.seqNum);
      AckedCovers(s, a.cumAck, a.ranges, c.seqNum);
    }
    if HasReceived(s.queue, r.recvRanges) {
      var c :| c in s.queue && Covers(r.recvRanges, c.seqNum);
      KeptWithin(s.queue, acked);
      SplitLength(s.queue, acked);
      assert c in Removed(s.queue, acked);
    }
  }

  /** What it leaves in the queue is what is missing, and none of it is in flight if all in flight has arrived. */
  lemma FreshAckKeeps(s: SendState, r: RecvState, config: FlowConfig, stream: seq<Chunk>)
    requires SenderOk(s, config, stream, r.recvRanges) && Agreement(r)
    requires forall c :: c in s.queue && c.inFlight ==> Covers(r.recvRanges, c.seqNum)
    ensures forall c :: c in Kept(s.queue, AckedRanges(s, AckOf(r).cumAck, AckOf(r).ranges)) ==> !c.inFlight
  {
    hide Covers, Kept, Removed, AckedRanges, AckOf, Agreement, SenderOk;
    KeptWithin(s.queue, AckedRanges(s, AckOf(r).cumAck, AckOf(r).ranges));
    FreshAckRemoves(s, r, config, stream);
  }

  /** An ack that leaves nothing in flight and tells the sender something makes it launch, or closes the window. */
  lemma AckLaunches(s: SendState, a: Ack)
    requires SendInv(s) && forall c :: c in Kept(s.queue, AckedRanges(s, a.cumAck, a.ranges)) ==> !c.inFlight
    requires AckIsValid(s, a.bufAvail - a.bufAvail % 1024, Removed(s.queue, AckedRanges(s, a.cumAck, a.ranges)))
    ensures var (t, data) := AckedBy(s, a);
      && Launches(t, data) && t.closed == s.closed
      && |t.queue| == |Kept(s.queue, AckedRanges(s, a.cumAck, a.ranges))|
      && (t.queue != [] ==> data != [] || (t.probing && a.bufAvail < 1024))
  {
    hide Kept, Removed, AckedRanges, SendInv, TrySendFrom, MaxTsn, NakAll, LostByNaks, InFlightBytes, Updated,
         Launches, MaySend, AnyNak;
    var bufAvail := a.bufAvail - a.bufAvail % 1024;
    var removed := Removed(s.queue, AckedRanges(s, a.cumAck, a.ranges));
    AckedInv(s, a.cumAck, a.ranges);
    var u := Acked(s, a.cumAck, a.ranges);
    assert forall k :: 0 <= k < |u.queue| ==> u.queue[k] in u.queue;
    var v := Responded(s, u, bufAvail, removed);
    IdleUnmarked(u.queue, MaxTsn(removed));
    RespondedInv(s, u, bufAvail, removed);
    TrySendLaunches(v);
    TrySendEffect(v, 0);
    if bufAvail > 0 {
      Idle(v);
    }
  }

  /** The receiver's present ack makes the sender launch what is missing, or closes the window. */
  lemma FreshAckLaunches(s: SendState, r: RecvState, config: FlowConfig, stream: seq<Chunk>)
    requires SenderOk(s, config, stream, r.recvRanges) && Agreement(r)
    requires forall c :: c in s.queue && c.inFlight ==> Covers(r.recvRanges, c.seqNum)
    requires HasReceived(s.queue, r.recvRanges)
    ensures var (t, data) := AckedBy(s, AckOf(r));
      && Launches(t, data) && |t.queue| < |s.queue| && t.closed == s.closed
      && (t.queue != [] ==> data != [] || (t.probing && Available(r) < 1024))
  {
    hide Covers, Kept, Removed, AckedRanges, Agreement, SenderOk, SendInv, PendingRanges, HasReceived, Launches,
         RangeAckStep;
    FreshAckKeeps(s, r, config, stream);
    FreshAckRemoves(s, r, config, stream);
    SenderParts(s, config, stream, r.recvRanges);
    AckLaunches(s, AckOf(r));
  }

  /** An old ack with room for a block opens a closed window again, and the front of the queue is launched. */
  lemma KeptAckLaunches(s: SendState, a: Ack)
    requires SendInv(s) && Launches(s, []) && s.probing && a.bufAvail >= 1024
    ensures var (t, data) := AckedBy(s, a);
      && Launches(t, data) && |t.queue| <= |s.queue| && t.closed == s.closed
      && (t.queue != [] ==> data != [])
  {
    hide Covers, Kept, Removed, AckedRanges, SendInv, RangeAckStep;
    var acked := AckedRanges(s, a.cumAck, a.ranges);
    KeptWithin(s.queue, acked);
    SplitLength(s.queue, acked);
    forall c | c in Kept(s.queue, acked)
      ensures !c.inFlight
    {
      var k :| 0 <= k < |s.queue| && s.queue[k] == c;
    }
    AckLaunches(s, a);
  }

  // ------------------------------------------------------------ the probe

  /** A sender with a closed window is probing. */
  predicate Probed(s: SendState) {
    !s.closed && s.recvWnd == 0 ==> s.probing
  }

  lemma TrySendProbed(s: SendState)
    requires Probed(s)
    ensures Probed(TrySendFrom(s, 0).0)
  {
    hide TrySendFrom;
    TrySendEffect(s, 0);
  }

  lemma AckProbed(s: SendState, a: RangeAck)
    requires Probed(s)
    ensures Probed(RangeAckStep(s, a.bufAvail, a.cumAck, a.ranges).0)
  {
    hide TrySendFrom, Removed, Kept, AckedRanges, Updated, LostByNaks, NakAll, InFlightBytes, MaxTsn, SumData, AnyNak;
    var removed := Removed(s.queue, AckedRanges(s, a.cumAck, a.ranges));
    var acked := Acked(s, a.cumAck, a.ranges);
    if AckIsValid(s, a.bufAvail, removed) {
      TrySendProbed(Responded(s, acked, a.bufAvail, removed));
    }
  }

  lemma {:induction false} AcksProbed(s: SendState, acks: seq<RangeAck>)
    requires Probed(s)
    ensures Probed(AcknowledgeAll(s, acks).0)
    decreases |acks|
  {
    hide RangeAckStep, Probed;
    if acks != [] {
      AckProbed(s, acks[0]);
      AcksProbed(RangeAckStep(s, acks[0].bufAvail, acks[0].cumAck, acks[0].ranges).0, acks[1..]);
    }
  }

  lemma AlarmProbed(s: SendState)
    requires Probed(s)
    ensures Probed(AlarmStep(s).0)
  {
    hide TrySendFrom, ExhaustedIndex, InFlightCount, InFlightBytes, Grounded;
    var n := ExhaustedIndex(s.queue);
    ExhaustedWithin(s.queue);
    if n == |s.queue| {
      var anyLoss := InFlightCount(s.queue) > 0;
      TrySendProbed(LoseFirst(s, |s.queue|).(window := TimedOut(s.window, anyLoss), dataPackets := 0));
    }
  }

  lemma StepProbed(link: Link, s: Sys, e: Event)
    requires Probed(s.snd)
    ensures Probed(Step(link, s, e).sys.snd)
  {
    hide TrySendFrom, AlarmStep, AcknowledgeAll, AcksIn, Fragmented;
    match e
    case Submit(m) =>
      if !s.snd.closed {
        TrySendProbed(Enqueued(s.snd, m));
      }
    case RtxAlarm => AlarmProbed(s.snd);
    case AckArrives(d) => AcksProbed(s.snd, AcksIn(link, d));
    case _ =>
  }

  lemma {:induction false} ProbedRuns(link: Link, states: seq<Sys>, events: seq<Event>)
    requires LinkOk(link) && Run(link, states, events)
    ensures Probed(states[|events|].snd)
    decreases |events|
  {
    hide LinkOk, Step, CarriesData, CarriesAcks, Probed;
    if events == [] {
      StartProbed(link);
    } else {
      var n := |events| - 1;
      assert states[..n + 1][n] == states[n];
      ProbedRuns(link, states[..n + 1], events[..n]);
      assert Next(link, states[n], events[n], states[n + 1]);
      StepProbed(link, states[n], events[n]);
    }
  }

  lemma StartProbed(link: Link)
    ensures Probed(Initial(link).snd)
  {
  }

  // ------------------------------------------------------------ the alarm

  /** An open sender with anything queued has it in flight, and its alarm set, or its window is closed. */
  predicate Armed(s: SendState) {
    !s.closed ==>
      && (AnyInFlight(s.queue) ==> s.rtxAlarm)
      && (s.queue == [] ==> s.dataPackets == 0)
      && (s.queue != [] ==> AnyInFlight(s.queue) || s.recvWnd == 0)
  }

  lemma {:induction false} TrySendFlies(s: SendState, i: nat)
    requires i <= |s.queue| && (AnyInFlight(s.queue) ==> s.rtxAlarm)
    ensures var t := TrySendFrom(s, i).0;
      && (AnyInFlight(t.queue) ==> t.rtxAlarm)
      && (AnyInFlight(s.queue) || (i < |s.queue| && MaySend(s)) ==> AnyInFlight(t.queue))
    decreases |s.queue| - i
  {
    hide MaySend;
    if i < |s.queue| && MaySend(s) {
      if s.queue[i].inFlight {
        TrySendFlies(s, i + 1);
      } else {
        var u := Transmitted(s, i);
        assert u.queue[i].inFlight;
        TrySendFlies(u, i + 1);
      }
    }
  }

  lemma TrySendArmed(s: SendState)
    requires SendInv(s) && (AnyInFlight(s.queue) ==> s.rtxAlarm)
    requires s.queue == [] || !AnyInFlight(s.queue) ==> s.dataPackets == 0 || s.recvWnd == 0
    requires s.queue == [] ==> s.dataPackets == 0
    ensures Armed(TrySendFrom(s, 0).0)
  {
    hide TrySendFrom, MaySend, SendInv;
    TrySendFlies(s, 0);
    TrySendEffect(s, 0);
    if s.queue == [] {
      NothingToSend(s);
    } else if !AnyInFlight(s.queue) && s.recvWnd > 0 {
      Idle(s);
    }
  }

  lemma NothingToSend(s: SendState)
    requires s.queue == []
    ensures TrySendFrom(s, 0) == (s, [])
  {
  }

  lemma SendArmed(s: SendState, m: Bytes)
    requires SendInv(s) && Armed(s)
    ensures Armed(SendStep(s, m).0)
  {
    hide TrySendFrom, Fragmented, SendInv, FitsSegment, Join, OneMessage;
    if !s.closed {
      var u := Enqueued(s, m);
      EnqueuedInv(s, m);
      FragmentShape(m, s.lastSeqnum);
      FragmentsOk(m, s.lastSeqnum, s.tsn);
      assert forall k :: 0 <= k < |s.queue| ==> u.queue[k] == s.queue[k];
      assert forall k :: |s.queue| <= k < |u.queue| ==> u.queue[k] in Fragmented(m, s.lastSeqnum);
      if AnyInFlight(s.queue) {
        var k :| 0 <= k < |s.queue| && s.queue[k].inFlight;
        assert u.queue[k].inFlight;
      }
      TrySendArmed(u);
    }
  }

  lemma KeptFlight(queue: seq<Chunk>, acked: seq<Range>)
    ensures AnyInFlight(Kept(queue, acked)) ==> AnyInFlight(queue)
    ensures Removed(queue, acked) == [] ==> |Kept(queue, acked)| == |queue|
    ensures Removed(queue, acked) == [] ==> (AnyInFlight(Kept(queue, acked)) <==> AnyInFlight(queue))
  {
    hide Kept, Removed, Covers;
    KeptWithin(queue, acked);
    SplitLength(queue, acked);
    var kept := Kept(queue, acked);
    if AnyInFlight(kept) {
      var k :| 0 <= k < |kept| && kept[k].inFlight;
      assert kept[k] in kept;
    }
    if AnyInFlight(queue) && Removed(queue, acked) == [] {
      var k :| 0 <= k < |queue| && queue[k].inFlight;
      assert queue[k] in queue && queue[k] in kept;
    }
  }

  lemma NakFlight(queue: seq<Chunk>, maxTsn: nat)
    ensures AnyInFlight(NakAll(queue, maxTsn)) ==> AnyInFlight(queue)
  {
  }

  lemma AckArmed(s: SendState, a: RangeAck)
    requires SendInv(s) && Armed(s)
    ensures Armed(RangeAckStep(s, a.bufAvail, a.cumAck, a.ranges).0)
  {
    hide TrySendFrom, AckedRanges, Updated, LostByNaks, InFlightBytes, MaxTsn, SumData, AnyNak, Covers, Removed, Kept,
         NakAll, SendInv, AnyInFlight;
    var acked := AckedRanges(s, a.cumAck, a.ranges);
    var removed := Removed(s.queue, acked);
    KeptFlight(s.queue, acked);
    if AckIsValid(s, a.bufAvail, removed) {
      var u := Acked(s, a.cumAck, a.ranges);
      var v := Responded(s, u, a.bufAvail, removed);
      AckedInv(s, a.cumAck, a.ranges);
      RespondedInv(s, u, a.bufAvail, removed);
      NakFlight(u.queue, MaxTsn(removed));
      if s.closed {
        TrySendEffect(v, 0);
      } else {
        TrySendArmed(v);
      }
    }
  }

  lemma GroundedNone(queue: seq<Chunk>)
    ensures !AnyInFlight(Grounded(queue))
  {
  }

  lemma AlarmArmed(s: SendState)
    requires SendInv(s) && Armed(s)
    ensures Armed(AlarmStep(s).0)
  {
    hide TrySendFrom, ExhaustedIndex, InFlightCount, InFlightBytes, SendInv, AnyInFlight, Grounded;
    ExhaustedWithin(s.queue);
    if ExhaustedIndex(s.queue) == |s.queue| {
      var anyLoss := InFlightCount(s.queue) > 0;
      LoseFirstInv(s, |s.queue|);
      LoseKeepsWindow(s);
      ResetInv(LoseFirst(s, |s.queue|), anyLoss);
      var u := LoseFirst(s, |s.queue|).(window := TimedOut(s.window, anyLoss), dataPackets := 0);
      assert s.queue[..|s.queue|] == s.queue && s.queue[|s.queue|..] == [];
      assert u.queue == Grounded(s.queue);
      GroundedNone(s.queue);
      TrySendArmed(u);
    }
  }

  lemma {:induction false} AcksArmed(s: SendState, acks: seq<RangeAck>)
    requires SendInv(s) && Armed(s)
    ensures Armed(AcknowledgeAll(s, acks).0)
    decreases |acks|
  {
    hide RangeAckStep, Armed, SendInv;
    if acks != [] {
      AckArmed(s, acks[0]);
      AckKeepsInv(s, acks[0].bufAvail, acks[0].cumAck, acks[0].ranges);
      AcksArmed(RangeAckStep(s, acks[0].bufAvail, acks[0].cumAck, acks[0].ranges).0, acks[1..]);
    }
  }

  lemma StepArmed(link: Link, s: Sys, e: Event)
    requires SendInv(s.snd) && Armed(s.snd)
    ensures Armed(Step(link, s, e).sys.snd)
  {
    hide SendStep, AlarmStep, AcknowledgeAll, AcksIn, SendInv, AnyInFlight;
    match e
    case Submit(m) => SendArmed(s.snd, m);
    case RtxAlarm => AlarmArmed(s.snd);
    case AckArrives(d) => AcksArmed(s.snd, AcksIn(link, d));
    case _ =>
  }

  lemma {:induction false} ArmedRuns(link: Link, states: seq<Sys>, events: seq<Event>)
    requires LinkOk(link) && Run(link, states, events)
    ensures Armed(states[|events|].snd)
    decreases |events|
  {
    hide LinkOk, Step, CarriesData, CarriesAcks, SendInv;
    if events != [] {
      var n := |events| - 1;
      assert states[..n + 1][n] == states[n];
      ArmedRuns(link, states[..n + 1], events[..n]);
      EndsStaySound(link, states[..n + 1], events[..n]);
      assert Next(link, states[n], events[n], states[n + 1]);
      StepArmed(link, states[n], events[n]);
    }
  }

  /** A sender with work left never sleeps: a retransmission alarm or a probe will wake one of the two ends. */
  lemma NeverAsleep(link: Link, states: seq<Sys>, events: seq<Event>)
    requires LinkOk(link) && Run(link, states, events)
    ensures var s := states[|events|].snd;
      !s.closed && s.queue != [] ==> (AnyInFlight(s.queue) && s.rtxAlarm) || s.probing
  {
    hide LinkOk, Next, AnyInFlight;
    ProbedRuns(link, states, events);
    ArmedRuns(link, states, events);
  }

  // -------------------------------------------------------------------- sizes

  function Pow128(k: nat): nat {
    if k == 0 then 1 else 128 * Pow128(k - 1)
  }

  lemma {:induction false} DigitsSize(v: nat, more: bool, k: nat)
    requires v < Pow128(k) && k >= 1
    ensures |Digits(v, more)| <= k
    decreases k
  {
    if v >= 128 {
      DigitsSize(v / 128, true, k - 1);
    }
  }

  /** A 64-bit number takes at most ten bytes. */
  lemma VluSize(v: nat)
    requires v < UINT_LIMIT
    ensures |Vlu(v)| <= 10
  {
    assert Pow128(3) == 0x20_0000;
    assert Pow128(6) == 0x400_0000_0000;
    assert Pow128(9) == 0x8000_0000_0000_0000;
    assert Pow128(10) == 128 * Pow128(9);
    DigitsSize(v, false, 10);
  }

  lemma MinusBound(a: nat, b: nat)
    requires a < UINT_LIMIT
    ensures Minus(a, b) < UINT_LIMIT
  {
  }

  lemma HeaderSize(h: Header)
    requires HeaderOk(h)
    ensures |HeaderBytes(h)| <= 5
  {
  }

  lemma PacketSize(cipher: Cipher, key: Option<Bytes>, sid: nat, h: Header, c: RawChunk)
    requires CipherOk(cipher) && sid < U32_LIMIT && HeaderOk(h)
    ensures |Packed(cipher, key, sid, Body(h, [c]))| <= |c.data| + 32
  {
    hide Xor, CheckSum, Scramble, HeaderBytes;
    HeaderSize(h);
    var body := Body(h, [c]);
    CheckedLength(body);
    CheckSumBound(Padded(body));
    ScrambleBound(sid, cipher.encrypt(KeyFor(key, sid), Checked(Padded(body))));
    assert AllChunkBytes([c]) == ChunkBytes(c) + [];
  }

  const MAX_SIGNATURE := 60000

  lemma OptionsSize(signature: Option<Bytes>, relFlowid: nat)
    requires |OptionBytes(signature)| <= MAX_SIGNATURE && relFlowid < 128
    ensures FlowOptions(signature, relFlowid).Some? ==>
      |FlowOptions(signature, relFlowid).value| <= MAX_SIGNATURE + 22
  {
    hide Vlu;
    VluSize(2);
    VluSize(relFlowid);
  }

  /** Sequence numbers, ids and the signature are such as the source's 64-bit integers and its uses give. */
  predicate SmallIds(link: Link, stream: seq<Chunk>) {
    link.flow.flowid < UINT_LIMIT && |stream| < UINT_LIMIT && |OptionBytes(link.flow.signature)| <= MAX_SIGNATURE
  }

  lemma DataSize(m: UserData)
    requires m.flowid < UINT_LIMIT && m.seqNum < UINT_LIMIT && m.fsnOffset < UINT_LIMIT
    requires |m.data| <= SMSS && |OptionBytes(m.options)| <= MAX_SIGNATURE + 22
    ensures DataShort(m)
  {
    hide Vlu;
    VluSize(m.flowid);
    VluSize(m.seqNum);
    VluSize(m.fsnOffset);
  }

  lemma LaunchedSendable(link: Link, s: SendState, data: seq<UserData>, stream: seq<Chunk>)
    requires LinkOk(link) && SmallIds(link, stream) && Launches(s, data)
    requires WellMade(data, link.flow) && GenuineData(data, stream)
    requires forall k :: 0 <= k < |stream| ==> |stream[k].data| <= SMSS
    ensures Sendable(link, data)
  {
    hide CipherOk, FlowOptions, SignatureOk, Minus, DataShort;
    OptionsSize(link.flow.signature, link.flow.relFlowid);
    forall m | m in data
      ensures DataShort(m)
    {
      var x :| 0 <= x < |data| && data[x] == m;
      MinusBound(s.queue[x].seqNum, s.queue[0].seqNum);
      assert NewChunk(m.frag, m.seqNum, m.data) == stream[m.seqNum - 1];
      DataSize(m);
    }
  }

  const MAX_WAITING := 3000

  lemma {:induction false} GapsSize(cursor: nat, ranges: seq<Range>)
    requires forall i :: 0 <= i < |ranges| ==> ranges[i].pos < UINT_LIMIT && ranges[i].len < UINT_LIMIT
    ensures |GapBytes(cursor, ranges)| <= 20 * |ranges|
    decreases |ranges|
  {
    if ranges != [] {
      hide Vlu, Minus;
      var r := ranges[0];
      MinusBound(r.pos, cursor + 1);
      MinusBound(r.len, 1);
      VluSize(Minus(r.pos, cursor + 1));
      VluSize(Minus(r.len, 1));
      GapsSize(r.End(), ranges[1..]);
    }
  }

  lemma {:induction false} AddedLength(rs: seq<Range>, r: Range)
    ensures |Added(rs, r)| <= |rs| + 1
    decreases |rs|
  {
    if rs != [] {
      if CanRangeMerge(rs[0], r) {
        AddedLength(rs[1..], RangeMerge(rs[0], r));
      }
      AddedLength(rs[1..], r);
    }
  }

  lemma {:induction false} AddedAllLength(rs: seq<Range>, list: seq<Range>)
    ensures |AddedAll(rs, list)| <= |rs| + |list|
    decreases |list|
  {
    hide Added;
    if list != [] {
      AddedLength(rs, list[0]);
      AddedAllLength(Added(rs, list[0]), list[1..]);
    }
  }

  /** The ranges of an ack lie within the stream, and are no more than the chunks that wait. */
  lemma AckRangesWithin(r: RecvState, stream: seq<Chunk>)
    requires Agreement(r) && AllGenuine(r.pending, stream)
    ensures |AckOf(r).ranges| <= |r.pending|
    ensures forall i :: 0 <= i < |AckOf(r).ranges| ==>
      AckOf(r).ranges[i].pos <= |stream| && AckOf(r).ranges[i].len <= |stream|
  {
    hide AddedAll;
    var ranges := PendingRanges(r.pending);
    AddedAllLength([], Singles(r.pending));
    PendingRangesMeaning(r.pending);
    forall i | 0 <= i < |ranges|
      ensures ranges[i].pos <= |stream| && ranges[i].len <= |stream|
    {
      var first, last := ranges[i].pos, ranges[i].pos + (ranges[i].len - 1);
      assert ranges[i].Contains(first) && ranges[i].Contains(last);
      assert Covers(ranges, first) && Covers(ranges, last);
      NumberGenuine(r.pending, first, stream);
      NumberGenuine(r.pending, last, stream);
    }
  }

  lemma NumberGenuine(cs: seq<Chunk>, n: nat, stream: seq<Chunk>)
    requires AllGenuine(cs, stream) && HasNumber(cs, n)
    ensures 1 <= n <= |stream|
  {
    var k :| 0 <= k < |cs| && cs[k].seqNum == n;
    assert cs[k] in cs;
  }

  lemma AckSize(link: Link, r: RecvState, stream: seq<Chunk>, start: nat)
    requires ReceiverOk(r, stream, start) && SmallIds(link, stream) && |r.pending| <= MAX_WAITING
    requires Available(r) < UINT_LIMIT
    ensures AckShort(link, AckOf(r))
  {
    hide Vlu, GapBytes, PendingRanges, Agreement, AllGenuine;
    var a := AckOf(r);
    AckRangesWithin(r, stream);
    VluSize(link.flow.flowid);
    VluSize(a.bufAvail / 1024);
    VluSize(a.cumAck);
    GapsSize(a.cumAck + 1, a.ranges);
  }

  // -------------------------------------------------------------------- room

  lemma {:induction false} JoinLength(cs: seq<Chunk>)
    ensures |Join(cs)| == SumData(cs)
  {
    if cs != [] {
      JoinLength(cs[1..]);
    }
  }

  /** All the bytes a receiver holds. */
  function Held(r: RecvState): int {
    r.orderedBytes + r.pendingBytes
  }

  lemma BytesHeld(r: RecvState)
    requires Agreement(r)
    ensures r.orderedBytes == SumData(r.ordered) && r.pendingBytes == SumData(r.pending)
    ensures 0 <= Held(r) && Available(r) <= MAX_RECV_BUF_SIZE
  {
  }

  /** Chunks of the stream numbered above k, in order and without repeats, are no more than the stream beyond k. */
  lemma {:induction false} PendingWithin(cs: seq<Chunk>, stream: seq<Chunk>, k: nat)
    requires Ascending(cs) && AllGenuine(cs, stream) && k <= |stream|
    requires forall i :: 0 <= i < |cs| ==> cs[i].seqNum > k
    ensures SumData(cs) <= SumData(stream[k..]) && |cs| <= |stream| - k
    decreases |stream| - k
  {
    if cs != [] {
      assert cs[0] in cs;
      assert stream[k..][1..] == stream[k + 1..];
      if cs[0].seqNum == k + 1 {
        PendingWithin(cs[1..], stream, k + 1);
      } else {
        PendingWithin(cs, stream, k + 1);
      }
    }
  }

  function Total(msgs: seq<Bytes>): nat {
    if msgs == [] then 0 else |msgs[0]| + Total(msgs[1..])
  }

  lemma {:induction false} StreamTotal(msgs: seq<Bytes>, j: nat)
    requires j <= |msgs|
    ensures |Stream(msgs[..j])| <= |Stream(msgs)|
    ensures SumData(Stream(msgs)[|Stream(msgs[..j])|..]) == Total(msgs[j..])
    decreases |msgs| - j
  {
    hide Stream, Fragmented, SumData, Join, OneMessage;
    StreamTaken(msgs, j);
    var start := |Stream(msgs[..j])|;
    if j == |msgs| {
      assert Stream(msgs)[start..] == [] && msgs[j..] == [];
      NothingHeld();
    } else {
      var cs := Fragmented(msgs[j], start);
      MessageSlot(msgs, j);
      FragmentShape(msgs[j], start);
      JoinLength(cs);
      SumDataConcat(cs, Stream(msgs)[start + |cs|..]);
      StreamTotal(msgs, j + 1);
      assert msgs[j..][1..] == msgs[j + 1..];
    }
  }

  lemma NothingHeld()
    ensures SumData([]) == 0
  {
  }

  /** The receiver holds nothing but bytes of messages that were sent and not yet read. */
  lemma HeldWithin(link: Link, s: Sys)
    requires Inv(link, s)
    ensures s.taken <= |s.sent| && Held(s.rcv) <= Total(s.sent[s.taken..])
  {
    hide SenderOk, ChannelOk, Stream, NonEmpty, SumData, AllGenuine, Ascending, Normal, Covers, Indexed, Total;
    var stream := Stream(s.sent);
    var start := |Stream(s.sent[..s.taken])|;
    var r := s.rcv;
    StreamTotal(s.sent, s.taken);
    PendingWithin(r.pending, stream, r.lastOrdered);
    assert stream[start..] == r.ordered + stream[r.lastOrdered..];
    SumDataConcat(r.ordered, stream[r.lastOrdered..]);
  }

  // ----------------------------------------------------------------- a round

  /** An open flow whose numbers are small enough for every datagram to fit. */
  ghost predicate OpenFlow(link: Link, s: Sys) {
    Inv(link, s) && !s.snd.closed && SmallIds(link, Stream(s.sent)) && |s.rcv.pending| <= MAX_WAITING
  }

  /** What a round starts from: an open flow, the front of whose queue is under way to the receiver. */
  ghost predicate RoundReady(link: Link, s: Sys, data: seq<UserData>)
    requires LinkOk(link)
  {
    OpenFlow(link, s) && Sendable(link, data) && UnderWay(link, data, s.toReceiver) && Launches(s.snd, data)
  }

  lemma UnderWayGenuine(link: Link, s: Sys, data: seq<UserData>)
    requires LinkOk(link) && Inv(link, s) && Sendable(link, data) && UnderWay(link, data, s.toReceiver)
    ensures GenuineData(data, Stream(s.sent))
  {
    hide SenderOk, ReceiverOk, Stream, DataIn, AcksIn, CipherOk, SignatureOk, DataPacket, Genuine, FlowOptions,
         NonEmpty, Truthful;
    forall m | m in data
      ensures Genuine(NewChunk(m.frag, m.seqNum, m.data), Stream(s.sent))
    {
      OneArrives(link, m);
      assert m in DataIn(link, DataDatagram(link, m));
    }
  }

  lemma InvParts(link: Link, s: Sys)
    requires Inv(link, s)
    ensures var stream := Stream(s.sent);
      && s.taken <= |s.sent|
      && SenderOk(s.snd, link.flow, stream, s.rcv.recvRanges)
      && ReceiverOk(s.rcv, stream, |Stream(s.sent[..s.taken])|)
      && Agreement(s.rcv)
  {
    hide SenderOk, Agreement, AllGenuine, OrderedIs, ChannelOk, Stream, NonEmpty;
  }

  lemma SenderQueue(s: SendState, config: FlowConfig, stream: seq<Chunk>, received: seq<Range>)
    requires SenderOk(s, config, stream, received)
    ensures SendInv(s) && s.config == config && Ascending(s.queue) && NothingLost(s.queue, |stream|, received)
    ensures forall c :: c in s.queue ==> 1 <= c.seqNum <= |stream|
  {
    hide PlainAll, Genuine, NothingLost;
    assert forall c :: c in s.queue ==> ChunkOk(c, s.lastSeqnum, s.tsn);
  }

  /** Once the launched chunks are delivered, everything in flight has been received. */
  lemma FlightReceived(s: SendState, data: seq<UserData>, received: seq<Range>)
    requires Launches(s, data) && forall n: nat :: Names(data, n) ==> Covers(received, n)
    ensures forall c :: c in s.queue && c.inFlight ==> Covers(received, c.seqNum)
  {
    hide Covers;
    forall c | c in s.queue && c.inFlight
      ensures Covers(received, c.seqNum)
    {
      var k :| 0 <= k < |s.queue| && s.queue[k] == c;
      assert data[k] in data && data[k].seqNum == c.seqNum;
      assert Names(data, c.seqNum);
    }
  }

  lemma PartUnderWay(link: Link, data: seq<UserData>, part: seq<UserData>, net: set<Bytes>)
    requires LinkOk(link) && Sendable(link, data) && UnderWay(link, data, net) && part <= data
    ensures Sendable(link, part) && UnderWay(link, part, net)
  {
    hide CipherOk, SignatureOk, DataPacket, DataShort, FlowOptions;
    assert forall m :: m in part ==> m in data;
  }

  /** The first chunks launched arrive; no more have to wait than before, and the receiver's ack is under way. */
  lemma HalfRound(link: Link, s: Sys, data: seq<UserData>, part: seq<UserData>) returns (t: Sys)
    requires LinkOk(link) && RoundReady(link, s, data) && part <= data && part != []
    ensures Reaches(link, s, t, true) && OpenFlow(link, t) && AckUnderWay(link, t, AckOf(t.rcv))
    ensures t == s.(rcv := t.rcv, toSender := t.toSender) && s.toSender <= t.toSender
    ensures forall n: nat :: Covers(t.rcv.recvRanges, n) <==> Covers(s.rcv.recvRanges, n) || Names(part, n)
    ensures HasReceived(s.snd.queue, t.rcv.recvRanges)
  {
    hide CipherOk, SignatureOk, Inv, UnderWay, Reaches, ReceiveAll, Covers, Stream, AckShort, GapsFit, AckDatagram,
         AckUnderWay, ReceiverOk, SenderOk, Gapless, NothingLost, AcksTruthful, Genuine, AckOf, Sendable, Available,
         SmallIds;
    var stream := Stream(s.sent);
    InvParts(link, s);
    var start := |Stream(s.sent[..s.taken])|;
    SenderQueue(s.snd, link.flow, stream, s.rcv.recvRanges);
    PartUnderWay(link, data, part, s.toReceiver);
    UnderWayGenuine(link, s, part);
    LaunchedGapless(s.snd, data, |stream|, s.rcv.recvRanges);
    GaplessPrefix(data, part, s.rcv.recvRanges);
    GaplessReceived(s.rcv, part, stream, start);
    ReceiveGenuine(link, s.rcv, part, stream, start);
    var r := ReceiveAll(s.rcv, part).0;
    ReceiverAgrees(r, stream, start);
    BytesHeld(r);
    AckSize(link, r, stream, start);
    t := DeliverAll(link, s, part);
    AckOfCore(t.rcv, r);
    AckIsTruthful(link, r);
    OnItsWay(link, t, AckOf(t.rcv));
    assert s.snd.queue[0] in s.snd.queue;
    assert part[0] == data[0] && Names(part, part[0].seqNum);
  }

  /** An ack under way was sent by the receiver, so that it claims nothing that is missing. */
  lemma UnderWayTruthful(link: Link, s: Sys, a: Ack)
    requires Inv(link, s) && AckUnderWay(link, s, a)
    ensures Truthful(Rounded(WireAck(link, a)), s.rcv.recvRanges)
  {
    hide SenderOk, ReceiverOk, Stream, NonEmpty, DataIn, AcksIn, Truthful;
    var d :| d in s.toSender && AcksIn(link, d) == [Rounded(WireAck(link, a))];
    assert Rounded(WireAck(link, a)) in AcksIn(link, d);
  }

  /** An ack gets through, and what it makes the sender launch gets under way. */
  lemma AckTaken(link: Link, s: Sys, a: Ack) returns (t: Sys, data: seq<UserData>)
    requires LinkOk(link) && OpenFlow(link, s) && AckUnderWay(link, s, a)
    requires Launches(AckedBy(s.snd, a).0, AckedBy(s.snd, a).1) && !AckedBy(s.snd, a).0.closed
    ensures Reaches(link, s, t, true) && RoundReady(link, t, data)
    ensures (t.snd, data) == AckedBy(s.snd, a) && t == s.(snd := t.snd, toReceiver := t.toReceiver)
  {
    hide CipherOk, SignatureOk, Inv, Reaches, Stream, SenderOk, Launches, AckUnderWay, RangeAckStep, ReceiverOk,
         Agreement, DataPacket, Truthful, Genuine, FlowOptions, DataShort;
    var stream := Stream(s.sent);
    InvParts(link, s);
    UnderWayTruthful(link, s, a);
    Protocol.AckArrived(s.snd, link.flow, Rounded(WireAck(link, a)), stream, s.rcv.recvRanges);
    data := AckedBy(s.snd, a).1;
    StreamShape(s.sent);
    LaunchedSendable(link, AckedBy(s.snd, a).0, data, stream);
    t := AckIn(link, s, a);
    WithDataCarried(link, s.toReceiver, data);
  }

  /** The second half: the receiver's ack arrives, and the sender launches what is missing or closes its window. */
  lemma AckRound(link: Link, s: Sys) returns (t: Sys, data: seq<UserData>)
    requires LinkOk(link) && OpenFlow(link, s) && AckUnderWay(link, s, AckOf(s.rcv))
    requires forall c :: c in s.snd.queue && c.inFlight ==> Covers(s.rcv.recvRanges, c.seqNum)
    requires HasReceived(s.snd.queue, s.rcv.recvRanges)
    ensures Reaches(link, s, t, true) && RoundReady(link, t, data) && |t.snd.queue| < |s.snd.queue|
    ensures (t.snd, data) == AckedBy(s.snd, AckOf(s.rcv)) && t == s.(snd := t.snd, toReceiver := t.toReceiver)
    ensures t.snd.queue != [] ==> data != [] || (t.snd.probing && Available(s.rcv) < 1024)
  {
    hide LinkOk, Inv, Reaches, Covers, HasReceived, Stream, SenderOk, Launches, RangeAckStep, ReceiverOk, Agreement,
         RoundReady, AckUnderWay, SmallIds, AckOf, Available;
    InvParts(link, s);
    FreshAckLaunches(s.snd, s.rcv, link.flow, Stream(s.sent));
    t, data := AckTaken(link, s, AckOf(s.rcv));
  }

  /** All that was launched arrives, and the receiver's ack makes the sender go on or close its window. */
  lemma Round(link: Link, s: Sys, data: seq<UserData>) returns (t: Sys, more: seq<UserData>)
    requires LinkOk(link) && RoundReady(link, s, data) && data != []
    ensures Reaches(link, s, t, true) && RoundReady(link, t, more) && |t.snd.queue| < |s.snd.queue|
    ensures t.sent == s.sent && s.toSender <= t.toSender
    ensures t.snd.queue != [] ==> t.snd.probing || more != []
  {
    hide LinkOk, OpenFlow, Sendable, UnderWay, Reaches, AckUnderWay, Covers, HasReceived, RangeAckStep;
    var u := HalfRound(link, s, data, data);
    FlightReceived(s.snd, data, u.rcv.recvRanges);
    t, more := AckRound(link, u);
    ReachesThen(link, s, u, t, true);
  }

  /** With nothing in flight and a closed window, an ack kept from when there was room opens the window again. */
  lemma Reopened(link: Link, s: Sys, a: Ack) returns (t: Sys, data: seq<UserData>)
    requires LinkOk(link) && RoundReady(link, s, []) && s.snd.probing && AckUnderWay(link, s, a)
    requires a.bufAvail >= 1024
    ensures Reaches(link, s, t, true) && RoundReady(link, t, data) && |t.snd.queue| <= |s.snd.queue|
    ensures t.sent == s.sent && t.toSender == s.toSender
    ensures t.snd.queue != [] ==> data != []
  {
    hide LinkOk, Inv, Reaches, Stream, SenderOk, Launches, RangeAckStep, ReceiverOk, AckUnderWay, SmallIds;
    InvParts(link, s);
    SenderQueue(s.snd, link.flow, Stream(s.sent), s.rcv.recvRanges);
    KeptAckLaunches(s.snd, a);
    t, data := AckTaken(link, s, a);
  }

  /** Round by round the queue gets shorter, until nothing is left. */
  lemma {:induction false} Rounds(link: Link, s: Sys, data: seq<UserData>, a: Ack) returns (t: Sys)
    requires LinkOk(link) && RoundReady(link, s, data) && AckUnderWay(link, s, a) && a.bufAvail >= 1024
    requires s.snd.queue != [] ==> s.snd.probing || data != []
    ensures Reaches(link, s, t, true) && Inv(link, t) && t.sent == s.sent && t.snd.queue == []
    decreases |s.snd.queue|, data == []
  {
    hide LinkOk, RoundReady, Reaches, Inv, AcksIn;
    if s.snd.queue == [] {
      t := s;
      RoundParts(link, s, data);
      ReachesSelf(link, s);
    } else {
      var u, more;
      if data == [] {
        u, more := Reopened(link, s, a);
      } else {
        u, more := Round(link, s, data);
      }
      t := Rounds(link, u, more, a);
      ReachesThen(link, s, u, t, true);
    }
  }

  lemma RoundParts(link: Link, s: Sys, data: seq<UserData>)
    requires LinkOk(link) && RoundReady(link, s, data)
    ensures OpenFlow(link, s) && Inv(link, s) && Launches(s.snd, data)
  {
  }

  // ----------------------------------------------------------------- theorem

  lemma AlarmOut(link: Link, s: Sys) returns (t: Sys, data: seq<UserData>)
    requires LinkOk(link) && OpenFlow(link, s) && Probed(s.snd) && s.snd.rtxAlarm && AnyInFlight(s.snd.queue)
    requires ExhaustedIndex(s.snd.queue) == |s.snd.queue|
    ensures Reaches(link, s, t, true) && RoundReady(link, t, data)
    ensures t == s.(snd := t.snd, toReceiver := t.toReceiver)
    ensures t.snd.queue != [] ==> t.snd.probing || data != []
  {
    hide CipherOk, SignatureOk, Inv, Reaches, Stream, SenderOk, Launches, ReceiverOk, DataPacket, Genuine, FlowOptions,
         AlarmStep, ExhaustedIndex, CarriesData, CarriesAcks, Sendable, SendInv, AnyInFlight;
    var stream := Stream(s.sent);
    InvParts(link, s);
    SenderQueue(s.snd, link.flow, stream, s.rcv.recvRanges);
    AlarmFires(s.snd, link.flow, stream, s.rcv.recvRanges);
    AlarmLaunches(s.snd);
    var (u, out, _) := AlarmStep(s.snd);
    data := out;
    StreamShape(s.sent);
    LaunchedSendable(link, u, data, stream);
    t := s.(snd := u, toReceiver := WithData(link, s.toReceiver, data));
    WithDataCarried(link, s.toReceiver, data);
    NothingCarried(link, s.toSender, [], []);
    StepReaches(link, s, RtxAlarm, t, true);
  }

  /** Nothing is left to do: the queue is empty, and all messages have been read. */
  predicate Completed(s: Sys) {
    s.snd.queue == [] && s.taken == |s.sent| && s.delivered == NonEmpty(s.sent)
  }

  lemma NothingMissing(link: Link, s: Sys)
    requires Inv(link, s) && s.snd.queue == [] && EndIndex(s.rcv.ordered) == |s.rcv.ordered|
    ensures Completed(s)
  {
    hide SendInv, AllGenuine, PlainAll, Covers, ReceiverOk, ChannelOk, Stream, NonEmpty, EndIndex;
    forall n: nat | 1 <= n <= |Stream(s.sent)|
      ensures Covers(s.rcv.recvRanges, n)
    {
      assert !HasNumber(s.snd.queue, n);
    }
    AllReadBack(s.rcv, s.sent, s.taken);
    NothingToRead(s.rcv.ordered);
    assert |s.sent[..s.taken] + []| == s.taken;
    assert s.sent[..|s.sent|] == s.sent;
  }

  lemma NothingToRead(ordered: seq<Chunk>)
    requires EndIndex(ordered) == |ordered|
    ensures ReadAll(ordered) == []
  {
  }

  /** An open flow that no further timeout closes, and in which every datagram fits. */
  ghost predicate Live(link: Link, s: Sys) {
    && !s.snd.closed && ExhaustedIndex(s.snd.queue) == |s.snd.queue|
    && SmallIds(link, Stream(s.sent)) && |s.rcv.pending| <= MAX_WAITING
  }

  /** Once the queue is empty, reading completes the transfer. */
  lemma LastRead(link: Link, s: Sys) returns (t: Sys)
    requires LinkOk(link) && Inv(link, s) && s.snd.queue == []
    ensures Reaches(link, s, t, true) && t.sent == s.sent && Completed(t)
  {
    hide LinkOk, Inv, Reaches, EndIndex, Completed;
    t := ReadOut(link, s);
    ReadingMakesRoom(s.rcv);
    NothingMissing(link, t);
  }

  /** The flow is brought to its end with an ack under way that says that a block was free. */
  lemma FinishWith(link: Link, s: Sys, a: Ack) returns (t: Sys)
    requires LinkOk(link) && Inv(link, s) && Probed(s.snd) && Armed(s.snd) && Live(link, s)
    requires AckUnderWay(link, s, a) && a.bufAvail >= 1024
    ensures Reaches(link, s, t, true) && t.sent == s.sent && Completed(t)
  {
    hide LinkOk, Inv, Reaches, Stream, SmallIds, ExhaustedIndex, Completed, RoundReady, AcksIn, AnyInFlight;
    if s.snd.queue == [] {
      t := LastRead(link, s);
    } else {
      var u, data;
      if AnyInFlight(s.snd.queue) {
        u, data := AlarmOut(link, s);
      } else {
        u, data := s, [];
        ReachesSelf(link, s);
        NothingLaunched(link, s);
      }
      var v := Rounds(link, u, data, a);
      t := LastRead(link, v);
      ReachesThen(link, s, u, v, true);
      ReachesThen(link, s, v, t, true);
    }
  }

  lemma NothingLaunched(link: Link, s: Sys)
    requires LinkOk(link) && OpenFlow(link, s) && !AnyInFlight(s.snd.queue)
    ensures RoundReady(link, s, [])
  {
    hide LinkOk, OpenFlow;
  }

  /** The flow is brought to its end from where everything that is whole has been read and a block is free. */
  lemma FinishRead(link: Link, s: Sys, prompted: bool) returns (t: Sys)
    requires LinkOk(link) && Inv(link, s) && Probed(s.snd) && Armed(s.snd) && Live(link, s)
    requires Available(s.rcv) >= 1024 && (prompted ==> s.rcv.delackAlarm || s.snd.probing)
    ensures Reaches(link, s, t, prompted) && t.sent == s.sent && Completed(t)
  {
    hide LinkOk, Inv, Reaches, Stream, SmallIds, ExhaustedIndex, Completed, AckShort, ReceiverOk, SenderOk, GapsFit,
         PendingRanges, AckDatagram, Probed, Armed, AckUnderWay;
    InvParts(link, s);
    BytesHeld(s.rcv);
    AckSize(link, s.rcv, Stream(s.sent), |Stream(s.sent[..s.taken])|);
    AckIsTruthful(link, s.rcv);
    var u := AckOut(link, s, prompted);
    OnItsWay(link, u, AckOf(s.rcv));
    t := FinishWith(link, u, AckOf(s.rcv));
    PromptedReaches(link, u, t, prompted);
    ReachesThen(link, s, u, t, prompted);
  }

  lemma Finish(link: Link, s: Sys, prompted: bool) returns (t: Sys)
    requires LinkOk(link) && Inv(link, s) && Probed(s.snd) && Armed(s.snd) && Live(link, s)
    requires Available(AfterReading(s.rcv)) >= 1024 && (prompted ==> s.rcv.delackAlarm || s.snd.probing)
    ensures Reaches(link, s, t, prompted) && t.sent == s.sent && Completed(t)
  {
    hide LinkOk, Inv, Reaches, Stream, SmallIds, ExhaustedIndex, Completed, Probed, Armed, Available, AfterReading;
    var u := ReadOut(link, s);
    ReadingMakesRoom(s.rcv);
    t := FinishRead(link, u, prompted);
    PromptedReaches(link, s, u, prompted);
    ReachesThen(link, s, u, t, prompted);
  }

  /**
   * Deadlock freedom. From every reachable state of an open flow in which no chunk in flight was sent more
   * than ten times, and whose receiver has a free block once the application has read what is whole, some
   * continuation empties the queue and delivers every non-empty message: neither window, probe nor burst
   * limit can block the transfer for good. Nothing in it comes unprompted, if an ack is due or can be probed.
   */
  lemma CanComplete(link: Link, states: seq<Sys>, events: seq<Event>) returns (t: Sys)
    requires LinkOk(link) && Run(link, states, events)
    requires Live(link, states[|events|]) && Available(AfterReading(states[|events|].rcv)) >= 1024
    ensures var s := states[|events|];
      Reaches(link, s, t, s.rcv.delackAlarm || s.snd.probing) && t.sent == s.sent && Completed(t)
  {
    hide LinkOk, Next, Inv, Reaches, Live, Completed, Probed, Armed, AfterReading;
    RunKeepsInv(link, states, events);
    ProbedRuns(link, states, events);
    ArmedRuns(link, states, events);
    var s := states[|events|];
    t := Finish(link, s, s.rcv.delackAlarm || s.snd.probing);
  }

  /** Every datagram under way to the sender brings one ack of the receiver. */
  ghost predicate SingleAcks(link: Link, s: Sys) {
    forall d :: d in s.toSender ==> exists a :: AcksIn(link, d) == [Rounded(WireAck(link, a))]
  }

  lemma NextSingle(link: Link, s: Sys, e: Event, t: Sys)
    requires LinkOk(link) && Inv(link, s) && Next(link, s, e, t) && SingleAcks(link, s)
    ensures SingleAcks(link, t)
  {
    hide CipherOk, SignatureOk, Inv, Step, AcksIn, Truthful, GapsFit, CarriesData, AckPacket, RangeAckBytes,
         GenuineData, WellMade;
    StepKeeps(link, s, e);
    var acks := Step(link, s, e).acks;
    forall d | d in t.toSender
      ensures exists a :: AcksIn(link, d) == [Rounded(WireAck(link, a))]
    {
      if d !in s.toSender {
        var h, i :| HeaderOk(h) && 0 <= i < |acks| && d == AckPacket(link, h, acks[i]);
        AckPacketLength(link, h, acks[i]);
        AckArrival(link, h, acks[i]);
      }
    }
  }

  lemma {:induction false} SingleRuns(link: Link, states: seq<Sys>, events: seq<Event>)
    requires LinkOk(link) && Run(link, states, events)
    ensures SingleAcks(link, states[|events|])
    decreases |events|
  {
    hide LinkOk, Next, Inv, AcksIn;
    if events != [] {
      var n := |events| - 1;
      assert states[..n + 1][n] == states[n];
      SingleRuns(link, states[..n + 1], events[..n]);
      RunKeepsInv(link, states[..n + 1], events[..n]);
      assert Next(link, states[n], events[n], states[n + 1]);
      NextSingle(link, states[n], events[n], states[n + 1]);
    }
  }

  /** An ack under way that says that a block is free, as of when it was sent. */
  ghost predicate RoomTold(link: Link, s: Sys) {
    exists d, a :: d in s.toSender && a in AcksIn(link, d) && a.bufAvail > 0
  }

  /** Such an ack is enough to complete the transfer, however full the receiver is by now. */
  lemma OldAckCompletes(link: Link, states: seq<Sys>, events: seq<Event>) returns (t: Sys)
    requires LinkOk(link) && Run(link, states, events)
    requires Live(link, states[|events|]) && RoomTold(link, states[|events|])
    ensures Reaches(link, states[|events|], t, true) && t.sent == states[|events|].sent && Completed(t)
  {
    hide LinkOk, Next, Inv, Reaches, Live, Completed, Probed, Armed, AcksIn;
    var s := states[|events|];
    RunKeepsInv(link, states, events);
    ProbedRuns(link, states, events);
    ArmedRuns(link, states, events);
    SingleRuns(link, states, events);
    var d, ack :| d in s.toSender && ack in AcksIn(link, d) && ack.bufAvail > 0;
    var a: Ack :| AcksIn(link, d) == [Rounded(WireAck(link, a))];
    t := FinishWith(link, s, a);
  }

  /** The sender's side can tell: messages that are not yet read and fit the buffer but for one block get through. */
  lemma UnreadFits(link: Link, states: seq<Sys>, events: seq<Event>) returns (t: Sys)
    requires LinkOk(link) && Run(link, states, events) && Live(link, states[|events|])
    requires var s := states[|events|];
      s.taken <= |s.sent| && Total(s.sent[s.taken..]) + 1024 <= MAX_RECV_BUF_SIZE
    ensures var s := states[|events|];
      Reaches(link, s, t, s.rcv.delackAlarm || s.snd.probing) && t.sent == s.sent && Completed(t)
  {
    hide LinkOk, Next, Inv, Reaches, Live, Completed, AfterReading, Total;
    RunKeepsInv(link, states, events);
    HeldWithin(link, states[|events|]);
    ReadingMakesRoom(states[|events|].rcv);
    t := CanComplete(link, states, events);
  }
}
