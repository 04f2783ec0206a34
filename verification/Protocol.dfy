/** Both ends of a flow over a channel that loses, delays, reorders and repeats datagrams. */
module Protocol {
  import opened ByteBuffers
  import opened ChunkCodecs
  import opened ChunkHeap
  import opened Fragments
  import opened Packets
  import opened Ranges
  import opened RecvFlows
  import opened SendFlows

  const CHUNK_USERDATA: byte := 0x10
  const CHUNK_RANGE_ACK: byte := 0x51
  const MAX_DATAGRAM := 65507  // the largest payload of a UDP datagram over IPv4

  /** What the handshake has settled: keys, session ids and the flow's parameters. */
  datatype Link = Link(cipher: Cipher, dataKey: Option<Bytes>, ackKey: Option<Bytes>,
                       senderSid: nat, receiverSid: nat, flow: FlowConfig)

  ghost predicate LinkOk(link: Link) {
    && CipherOk(link.cipher)
    && link.senderSid < U32_LIMIT && link.receiverSid < U32_LIMIT
    && SignatureOk(link.flow.signature) && link.flow.relFlowid < 128
  }

  /**
   * The two flows and the datagrams under way. The history variables sent, delivered and taken record
   * the messages accepted by send, those returned by recv, and how many read_message has consumed.
   */
  datatype Sys = Sys(sent: seq<Bytes>, snd: SendState, rcv: RecvState, delivered: seq<Bytes>, taken: nat,
                     toReceiver: set<Bytes>, toSender: set<Bytes>)

  datatype Event =
    | Submit(message: Bytes)
    | RtxAlarm
    | CloseSender
    | AckArrives(datagram: Bytes)
    | DataArrives(datagram: Bytes)
    | AckDue       // the delayed-ack alarm or a buffer probe
    | ReadMessage
    | Quiet        // only the channel acts

  function Initial(link: Link): Sys {
    Sys([], OpenedSend(link.flow), EMPTY_RECV_STATE, [], 0, {}, {})
  }

  // ------------------------------------------------------------ on the wire

  function DataPacket(link: Link, h: Header, m: UserData): Bytes
    requires HeaderOk(h) && link.receiverSid < U32_LIMIT
  {
    Packed(link.cipher, link.dataKey, link.receiverSid, Body(h, [RawChunk(CHUNK_USERDATA, UserDataBytes(m))]))
  }

  function WireAck(link: Link, a: Ack): RangeAck {
    RangeAck(link.flow.flowid, a.bufAvail, a.cumAck, a.ranges)
  }

  /** The free buffer travels in blocks of 1024 bytes. */
  function Rounded(a: RangeAck): RangeAck {
    a.(bufAvail := a.bufAvail - a.bufAvail % 1024)
  }

  function AckPacket(link: Link, h: Header, a: Ack): Bytes
    requires HeaderOk(h) && link.senderSid < U32_LIMIT
  {
    Packed(link.cipher, link.ackKey, link.senderSid,
           Body(h, [RawChunk(CHUNK_RANGE_ACK, RangeAckBytes(WireAck(link, a)))]))
  }

  function ChunksIn(cipher: Cipher, key: Option<Bytes>, datagram: Bytes): seq<RawChunk> {
    match Opened(cipher, key, datagram)
    case Packet(_, _, chunks) => chunks
    case _ => []
  }

  /** The user data chunks of the flow, in the order in which the packet holds them. */
  function FlowData(chunks: seq<RawChunk>, flowid: nat): seq<UserData> {
    if chunks == [] then []
    else
      var m := TakeUserData(chunks[0].data);
      if chunks[0].kind == CHUNK_USERDATA && m.flowid == flowid then [m] + FlowData(chunks[1..], flowid)
      else FlowData(chunks[1..], flowid)
  }

  function FlowAcks(chunks: seq<RawChunk>, flowid: nat): seq<RangeAck> {
    if chunks == [] then []
    else
      var a := TakeRangeAck(chunks[0].data);
      if chunks[0].kind == CHUNK_RANGE_ACK && a.flowid == flowid then [a] + FlowAcks(chunks[1..], flowid)
      else FlowAcks(chunks[1..], flowid)
  }

  function DataIn(link: Link, datagram: Bytes): seq<UserData> {
    FlowData(ChunksIn(link.cipher, link.dataKey, datagram), link.flow.flowid)
  }

  function AcksIn(link: Link, datagram: Bytes): seq<RangeAck> {
    FlowAcks(ChunksIn(link.cipher, link.ackKey, datagram), link.flow.flowid)
  }

  /** The channel keeps any part of what it held and of what was just sent, under any header. */
  ghost predicate CarriesData(link: Link, before: set<Bytes>, sent: seq<UserData>, after: set<Bytes>)
    requires link.receiverSid < U32_LIMIT
  {
    forall d :: d in after ==> d in before || (|d| <= MAX_DATAGRAM && exists h, i ::
      HeaderOk(h) && 0 <= i < |sent| && d == DataPacket(link, h, sent[i]))
  }

  ghost predicate CarriesAcks(link: Link, before: set<Bytes>, sent: seq<Ack>, after: set<Bytes>)
    requires link.senderSid < U32_LIMIT
  {
    forall d :: d in after ==> d in before || (|d| <= MAX_DATAGRAM && exists h, i ::
      HeaderOk(h) && 0 <= i < |sent| && d == AckPacket(link, h, sent[i]))
  }

  // ------------------------------------------------------------------- steps

  function ReceiveAll(r: RecvState, ms: seq<UserData>): (RecvState, seq<Ack>)
    decreases |ms|
  {
    if ms == [] then (r, [])
    else
      var (u, ack) := UserdataStep(r, ms[0].frag, ms[0].seqNum, ms[0].data);
      var (t, acks) := ReceiveAll(u, ms[1..]);
      if ack.Some? then (t, [ack.value] + acks) else (t, acks)
  }

  function AcknowledgeAll(s: SendState, acks: seq<RangeAck>): (SendState, seq<UserData>)
    decreases |acks|
  {
    if acks == [] then (s, [])
    else
      var (u, data) := RangeAckStep(s, acks[0].bufAvail, acks[0].cumAck, acks[0].ranges);
      var (t, more) := AcknowledgeAll(u, acks[1..]);
      (t, data + more)
  }

  datatype Outcome = Outcome(sys: Sys, data: seq<UserData>, acks: seq<Ack>)

  /** What the ends do at an event, and what they hand to the channel. */
  function Step(link: Link, s: Sys, e: Event): Outcome {
    match e
    case Submit(m) =>
      var (u, data) := SendStep(s.snd, m);
      Outcome(s.(snd := u, sent := if s.snd.closed then s.sent else s.sent + [m]), data, [])
    case RtxAlarm =>
      var (u, data, _) := AlarmStep(s.snd);
      Outcome(s.(snd := u), data, [])
    case CloseSender =>
      Outcome(s.(snd := Closed(s.snd)), [], [])
    case AckArrives(d) =>
      var (u, data) := AcknowledgeAll(s.snd, AcksIn(link, d));
      Outcome(s.(snd := u), data, [])
    case DataArrives(d) =>
      var (r, acks) := ReceiveAll(s.rcv, DataIn(link, d));
      Outcome(s.(rcv := r), [], acks)
    case AckDue =>
      Outcome(s.(rcv := AfterAck(s.rcv)), [], [AckOf(s.rcv)])
    case ReadMessage =>
      var (r, got) := ReadStep(s.rcv);
      if got.None? then Outcome(s.(rcv := r), [], [])
      else
        Outcome(s.(rcv := r, taken := s.taken + 1,
                   delivered := if got.value == [] then s.delivered else s.delivered + [got.value]), [], [])
    case Quiet =>
      Outcome(s, [], [])
  }

  predicate Enabled(s: Sys, e: Event) {
    (e.AckArrives? ==> e.datagram in s.toSender) && (e.DataArrives? ==> e.datagram in s.toReceiver)
  }

  ghost predicate Next(link: Link, s: Sys, e: Event, t: Sys)
    requires LinkOk(link)
  {
    var o := Step(link, s, e);
    && Enabled(s, e)
    && t == o.sys.(toReceiver := t.toReceiver, toSender := t.toSender)
    && CarriesData(link, s.toReceiver, o.data, t.toReceiver)
    && CarriesAcks(link, s.toSender, o.acks, t.toSender)
  }

  ghost predicate Run(link: Link, states: seq<Sys>, events: seq<Event>)
    requires LinkOk(link)
  {
    && |states| == |events| + 1
    && states[0] == Initial(link)
    && forall i :: 0 <= i < |events| ==> Next(link, states[i], events[i], states[i + 1])
  }

  // --------------------------------------------------------------- invariant

  predicate Genuine(c: Chunk, stream: seq<Chunk>) {
    1 <= c.seqNum <= |stream| && c == stream[c.seqNum - 1]
  }

  predicate AllGenuine(cs: seq<Chunk>, stream: seq<Chunk>) {
    forall c :: c in cs ==> Genuine(c, stream)
  }

  predicate GenuineData(ms: seq<UserData>, stream: seq<Chunk>) {
    forall m :: m in ms ==> Genuine(NewChunk(m.frag, m.seqNum, m.data), stream)
  }

  /** Nothing but the number zero is claimed that the receiver does not have. */
  ghost predicate Truthful(a: RangeAck, received: seq<Range>) {
    forall n: nat :: n <= a.cumAck || Covers(a.ranges, n) ==> n == 0 || Covers(received, n)
  }

  ghost predicate AckedIsReceived(acked: seq<Range>, received: seq<Range>) {
    forall n: nat :: Covers(acked, n) ==> n == 0 || Covers(received, n)
  }

  ghost predicate NothingLost(queue: seq<Chunk>, last: nat, received: seq<Range>) {
    forall n: nat :: 1 <= n <= last ==> HasNumber(queue, n) || Covers(received, n)
  }

  ghost predicate SenderOk(s: SendState, config: FlowConfig, stream: seq<Chunk>, received: seq<Range>) {
    && SendInv(s) && s.config == config
    && s.lastSeqnum == |stream|
    && AllGenuine(PlainAll(s.queue), stream)
    && AckedIsReceived(s.ackRanges, received)
    && NothingLost(s.queue, |stream|, received)
  }

  /** The ordered buffer holds the stream from a message boundary up to the last number in order. */
  predicate OrderedIs(r: RecvState, stream: seq<Chunk>, start: nat) {
    start <= r.lastOrdered <= |stream| && r.ordered == stream[start..r.lastOrdered]
  }

  ghost predicate ReceiverOk(r: RecvState, stream: seq<Chunk>, start: nat) {
    Agreement(r) && OrderedIs(r, stream, start) && AllGenuine(r.pending, stream)
  }

  ghost predicate ChannelOk(link: Link, s: Sys, stream: seq<Chunk>, received: seq<Range>) {
    && (forall d :: d in s.toReceiver ==> GenuineData(DataIn(link, d), stream))
    && (forall d, a :: d in s.toSender && a in AcksIn(link, d) ==> Truthful(a, received))
  }

  function NonEmpty(msgs: seq<Bytes>): seq<Bytes> {
    if msgs == [] then []
    else if msgs[|msgs| - 1] == [] then NonEmpty(msgs[..|msgs| - 1])
    else NonEmpty(msgs[..|msgs| - 1]) + [msgs[|msgs| - 1]]
  }

  ghost predicate Inv(link: Link, s: Sys) {
    && s.taken <= |s.sent|
    && s.delivered == NonEmpty(s.sent[..s.taken])
    && SenderOk(s.snd, link.flow, Stream(s.sent), s.rcv.recvRanges)
    && ReceiverOk(s.rcv, Stream(s.sent), |Stream(s.sent[..s.taken])|)
    && ChannelOk(link, s, Stream(s.sent), s.rcv.recvRanges)
  }

  // ---------------------------------------------------------------- receiver

  lemma GenuineGrows(cs: seq<Chunk>, stream: seq<Chunk>, more: seq<Chunk>)
    requires AllGenuine(cs, stream)
    ensures AllGenuine(cs, stream + more)
  {
  }

  lemma RunIsStream(run: seq<Chunk>, stream: seq<Chunk>, last: nat)
    requires AllGenuine(run, stream) && last <= |stream|
    requires forall i :: 0 <= i < |run| ==> run[i].seqNum == last + 1 + i
    ensures last + |run| <= |stream| && run == stream[last..last + |run|]
  {
    if run != [] {
      assert run[|run| - 1] in run;
    }
    assert forall i :: 0 <= i < |run| ==> run[i] in run;
  }

  lemma DrainedOrdered(r: RecvState, stream: seq<Chunk>, start: nat)
    requires OrderedIs(r, stream, start) && AllGenuine(r.pending, stream) && Ascending(r.pending)
    ensures OrderedIs(Drained(r), stream, start) && AllGenuine(Drained(r).pending, stream)
  {
    hide RunLength, Ascending;
    var k := RunLength(r.pending, r.lastOrdered);
    RunNumbers(r.pending, r.lastOrdered);
    assert forall c :: c in r.pending[..k] ==> c in r.pending;
    RunIsStream(r.pending[..k], stream, r.lastOrdered);
    assert stream[start..r.lastOrdered] + stream[r.lastOrdered..r.lastOrdered + k]
        == stream[start..r.lastOrdered + k];
  }

  lemma SoundAscends(r: RecvState)
    requires Sound(r)
    ensures Ascending(r.pending)
  {
  }

  lemma AcceptedGenuine(r: RecvState, c: Chunk, stream: seq<Chunk>, start: nat)
    requires ReceiverOk(r, stream, start) && Genuine(c, stream) && !Covers(r.recvRanges, c.seqNum)
    ensures OrderedIs(Drained(Accepted(r, c)), stream, start)
    ensures AllGenuine(Drained(Accepted(r, c)).pending, stream)
  {
    hide Drained, Sound, Indexed, PendingAbove, Inserted, Added, Covers, Normal, Ascending;
    AcceptedSound(r, c);
    SoundAscends(Accepted(r, c));
    InsertedElements(r.pending, c);
    DrainedOrdered(Accepted(r, c), stream, start);
  }

  lemma DrainedKeepsRanges(r: RecvState)
    ensures Drained(r).recvRanges == r.recvRanges
  {
  }

  /** A genuine chunk adds exactly its number to what was received, and the receiver stays in order. */
  lemma UserdataGenuine(r: RecvState, m: UserData, stream: seq<Chunk>, start: nat)
    requires ReceiverOk(r, stream, start) && Genuine(NewChunk(m.frag, m.seqNum, m.data), stream)
    ensures var (t, ack) := UserdataStep(r, m.frag, m.seqNum, m.data);
      && ReceiverOk(t, stream, start)
      && (forall n: nat :: Covers(t.recvRanges, n) <==> Covers(r.recvRanges, n) || n == m.seqNum)
      && (ack.Some? ==> ack.value == AckOf(t))
  {
    hide Drained, Accepted, Sound, Indexed, PendingAbove, PendingRanges, Covers, Normal, AllGenuine;
    var t := UserdataStep(r, m.frag, m.seqNum, m.data).0;
    var c := NewChunk(m.frag, m.seqNum, m.data);
    UserdataAgreement(r, m.frag, m.seqNum, m.data);
    if !Covers(r.recvRanges, m.seqNum) {
      var counted := r.(rxPackets := r.rxPackets + 1);
      CoreSuffices(r);
      CoreSuffices(counted);
      AcceptedGenuine(counted, c, stream, start);
      AgreementSound(counted);
      AcceptedSound(counted, c);
      DrainedKeepsRanges(Accepted(counted, c));
    }
  }

  lemma AgreementSound(r: RecvState)
    requires Agreement(r)
    ensures Sound(r)
  {
  }

  /** Every ack of a receiver whose indexes agree can be encoded and claims only what has arrived. */
  lemma AckIsTruthful(link: Link, r: RecvState)
    requires Agreement(r)
    ensures GapsFit(AckOf(r).cumAck + 1, AckOf(r).ranges)
    ensures Truthful(WireAck(link, AckOf(r)), r.recvRanges)
  {
    AckFits(r);
    PendingRangesMeaning(r.pending);
  }

  lemma TruthfulGrows(a: RangeAck, received: seq<Range>, after: seq<Range>)
    requires Truthful(a, received) && forall n: nat :: Covers(received, n) ==> Covers(after, n)
    ensures Truthful(a, after)
  {
  }

  ghost predicate AcksTruthful(link: Link, acks: seq<Ack>, received: seq<Range>) {
    forall a :: a in acks ==> GapsFit(a.cumAck + 1, a.ranges) && Truthful(WireAck(link, a), received)
  }

  predicate Names(ms: seq<UserData>, n: nat) {
    exists m :: m in ms && m.seqNum == n
  }

  lemma NamesFirst(ms: seq<UserData>)
    ensures forall n: nat :: Names(ms, n) <==> ms != [] && (n == ms[0].seqNum || Names(ms[1..], n))
  {
    forall n: nat
      ensures Names(ms, n) <==> ms != [] && (n == ms[0].seqNum || Names(ms[1..], n))
    {
      if Names(ms, n) {
        var m :| m in ms && m.seqNum == n;
        assert m != ms[0] ==> m in ms[1..];
      }
      assert ms != [] ==> ms[0] in ms;
    }
  }

  lemma {:induction false} ReceiveGenuine(link: Link, r: RecvState, ms: seq<UserData>, stream: seq<Chunk>, start: nat)
    requires ReceiverOk(r, stream, start) && GenuineData(ms, stream)
    ensures var (t, acks) := ReceiveAll(r, ms);
      && ReceiverOk(t, stream, start)
      && (forall n: nat :: Covers(t.recvRanges, n) <==> Covers(r.recvRanges, n) || Names(ms, n))
      && AcksTruthful(link, acks, t.recvRanges)
    decreases |ms|
  {
    hide UserdataStep, ReceiverOk, Covers, GapsFit, Truthful, AckOf, Genuine, Names;
    NamesFirst(ms);
    if ms != [] {
      var m := ms[0];
      var (u, ack) := UserdataStep(r, m.frag, m.seqNum, m.data);
      UserdataGenuine(r, m, stream, start);
      ReceiveGenuine(link, u, ms[1..], stream, start);
      ReceiverAgrees(u, stream, start);
      AckIsTruthful(link, u);
      TruthfulGrows(WireAck(link, AckOf(u)), u.recvRanges, ReceiveAll(u, ms[1..]).0.recvRanges);
    }
  }

  lemma ReceiverAgrees(r: RecvState, stream: seq<Chunk>, start: nat)
    requires ReceiverOk(r, stream, start)
    ensures Agreement(r)
  {
  }

  // ------------------------------------------------------------------- sender

  lemma HasPlain(cs: seq<Chunk>, n: nat)
    ensures HasNumber(PlainAll(cs), n) <==> HasNumber(cs, n)
  {
    if HasNumber(cs, n) {
      var i :| 0 <= i < |cs| && cs[i].seqNum == n;
      assert PlainAll(cs)[i].seqNum == n;
    }
  }

  lemma CarriedIsGenuine(sent: seq<UserData>, config: FlowConfig, queue: seq<Chunk>, stream: seq<Chunk>)
    requires forall k :: 0 <= k < |sent| ==> Carries(sent[k], config, queue)
    requires AllGenuine(PlainAll(queue), stream)
    ensures GenuineData(sent, stream)
  {
  }

  /** The data messages a sender emits: of its flow, and with the flow's options or none. */
  predicate WellMade(ms: seq<UserData>, config: FlowConfig) {
    forall m :: m in ms ==>
      && m.flowid == config.flowid
      && (m.options.Some? ==> m.options == FlowOptions(config.signature, config.relFlowid))
  }

  lemma CarriedIsWellMade(sent: seq<UserData>, config: FlowConfig, queue: seq<Chunk>)
    requires forall k :: 0 <= k < |sent| ==> Carries(sent[k], config, queue)
    ensures WellMade(sent, config)
  {
  }

  /** The part of the sender's invariant that only looks at the chunks in the queue. */
  lemma FromShape(s: SendState, t: SendState, sent: seq<UserData>, queue: seq<Chunk>, stream: seq<Chunk>,
                  received: seq<Range>)
    requires StepShape(s, t, sent, queue) && SendInv(t)
    requires t.lastSeqnum == |stream| && AllGenuine(queue, stream)
    requires AckedIsReceived(t.ackRanges, received) && NothingLost(queue, |stream|, received)
    ensures SenderOk(t, s.config, stream, received)
    ensures GenuineData(sent, stream) && WellMade(sent, s.config)
  {
    hide SendInv, AllGenuine, GenuineData, Carries, WellMade, AckedIsReceived, Covers, PlainAll, HasNumber;
    CarriedIsGenuine(sent, s.config, t.queue, stream);
    CarriedIsWellMade(sent, s.config, t.queue);
    forall n: nat | 1 <= n <= |stream|
      ensures HasNumber(t.queue, n) || Covers(received, n)
    {
      HasPlain(t.queue, n);
    }
  }

  lemma PlainLost(queue: seq<Chunk>, last: nat, received: seq<Range>)
    requires NothingLost(queue, last, received)
    ensures NothingLost(PlainAll(queue), last, received)
  {
    hide PlainAll, HasNumber, Covers;
    forall n: nat | 1 <= n <= last
      ensures HasNumber(PlainAll(queue), n) || Covers(received, n)
    {
      HasPlain(queue, n);
    }
  }

  lemma AckedMeans(s: SendState, a: RangeAck, received: seq<Range>)
    requires Normal(s.ackRanges) && AckedIsReceived(s.ackRanges, received) && Truthful(a, received)
    ensures AckedIsReceived(AckedRanges(s, a.cumAck, a.ranges), received)
  {
    hide Normal, Covers, AckedRanges;
    forall n: nat | Covers(AckedRanges(s, a.cumAck, a.ranges), n)
      ensures n == 0 || Covers(received, n)
    {
      AckedCovers(s, a.cumAck, a.ranges, n);
    }
  }

  lemma KeptLosesNothing(queue: seq<Chunk>, acked: seq<Range>, last: nat, received: seq<Range>)
    requires NothingLost(queue, last, received) && AckedIsReceived(acked, received)
    ensures NothingLost(Kept(queue, acked), last, received)
  {
    hide Covers, Kept;
    KeptWithin(queue, acked);
    var kept := Kept(queue, acked);
    forall n: nat | 1 <= n <= last
      ensures HasNumber(kept, n) || Covers(received, n)
    {
      if HasNumber(queue, n) && !Covers(received, n) {
        var i :| 0 <= i < |queue| && queue[i].seqNum == n;
        assert queue[i] in kept;
      }
    }
  }

  lemma KeptGenuine(queue: seq<Chunk>, acked: seq<Range>, stream: seq<Chunk>)
    requires AllGenuine(queue, stream)
    ensures AllGenuine(Kept(queue, acked), stream)
  {
    hide Kept, Covers, Genuine;
    KeptWithin(queue, acked);
  }

  lemma SenderParts(s: SendState, config: FlowConfig, stream: seq<Chunk>, received: seq<Range>)
    requires SenderOk(s, config, stream, received)
    ensures SendInv(s) && Normal(s.ackRanges) && s.config == config && s.lastSeqnum == |stream|
    ensures AllGenuine(PlainAll(s.queue), stream) && NothingLost(PlainAll(s.queue), |stream|, received)
    ensures AckedIsReceived(s.ackRanges, received)
  {
    PlainLost(s.queue, |stream|, received);
  }

  lemma AckArrived(s: SendState, config: FlowConfig, a: RangeAck, stream: seq<Chunk>, received: seq<Range>)
    requires SenderOk(s, config, stream, received) && Truthful(a, received)
    ensures var (t, data) := RangeAckStep(s, a.bufAvail, a.cumAck, a.ranges);
      && SenderOk(t, config, stream, received)
      && GenuineData(data, stream) && WellMade(data, config)
  {
    hide SenderOk, SendInv, RangeAckStep, PlainAll, Kept, AckedRanges, Normal, Carries, AllGenuine, GenuineData,
         WellMade, NothingLost, AckedIsReceived, Truthful;
    var acked := AckedRanges(s, a.cumAck, a.ranges);
    var (t, data) := RangeAckStep(s, a.bufAvail, a.cumAck, a.ranges);
    SenderParts(s, config, stream, received);
    AckKeepsInv(s, a.bufAvail, a.cumAck, a.ranges);
    AckShape(s, a.bufAvail, a.cumAck, a.ranges);
    AckedMeans(s, a, received);
    KeptLosesNothing(PlainAll(s.queue), acked, |stream|, received);
    KeptGenuine(PlainAll(s.queue), acked, stream);
    FromShape(s, t, data, Kept(PlainAll(s.queue), acked), stream, received);
  }

  lemma {:induction false} AcksArrived(s: SendState, config: FlowConfig, acks: seq<RangeAck>, stream: seq<Chunk>,
                                       received: seq<Range>)
    requires SenderOk(s, config, stream, received) && forall a :: a in acks ==> Truthful(a, received)
    ensures var (t, data) := AcknowledgeAll(s, acks);
      && SenderOk(t, config, stream, received)
      && GenuineData(data, stream) && WellMade(data, config)
    decreases |acks|
  {
    hide SenderOk, RangeAckStep, Truthful, Genuine, FlowOptions;
    if acks != [] {
      AckArrived(s, config, acks[0], stream, received);
      AcksArrived(RangeAckStep(s, acks[0].bufAvail, acks[0].cumAck, acks[0].ranges).0, config, acks[1..], stream,
                  received);
    }
  }

  lemma AlarmFires(s: SendState, config: FlowConfig, stream: seq<Chunk>, received: seq<Range>)
    requires SenderOk(s, config, stream, received)
    ensures var (t, data, _) := AlarmStep(s);
      && SenderOk(t, config, stream, received)
      && GenuineData(data, stream) && WellMade(data, config)
  {
    hide SenderOk, SendInv, AlarmStep, PlainAll, Normal, Carries, AllGenuine, GenuineData,
         WellMade, NothingLost, AckedIsReceived;
    SenderParts(s, config, stream, received);
    AlarmKeepsInv(s);
    AlarmShape(s);
    FromShape(s, AlarmStep(s).0, AlarmStep(s).1, PlainAll(s.queue), stream, received);
  }

  lemma FragmentsGenuine(stream: seq<Chunk>, data: Bytes)
    ensures AllGenuine(Fragmented(data, |stream|), stream + Fragmented(data, |stream|))
  {
    hide Fragmented;
    var cs := Fragmented(data, |stream|);
    FragmentShape(data, |stream|);
    forall c | c in cs
      ensures Genuine(c, stream + cs)
    {
      var i :| 0 <= i < |cs| && cs[i] == c;
      assert (stream + cs)[|stream| + i] == c;
    }
  }

  lemma QueueGrows(queue: seq<Chunk>, cs: seq<Chunk>, last: nat, received: seq<Range>)
    requires NothingLost(queue, last, received) && Numbered(cs, last)
    ensures NothingLost(queue + cs, last + |cs|, received)
  {
    hide Covers;
    forall n: nat | 1 <= n <= last + |cs|
      ensures HasNumber(queue + cs, n) || Covers(received, n)
    {
      if n > last {
        assert (queue + cs)[|queue| + (n - last - 1)].seqNum == n;
      } else if HasNumber(queue, n) {
        var i :| 0 <= i < |queue| && queue[i].seqNum == n;
        assert (queue + cs)[i].seqNum == n;
      }
    }
  }

  function SubmittedStream(s: SendState, stream: seq<Chunk>, data: Bytes): seq<Chunk> {
    stream + if s.closed then [] else Fragmented(data, |stream|)
  }

  lemma MessageSubmitted(s: SendState, config: FlowConfig, m: Bytes, stream: seq<Chunk>, received: seq<Range>)
    requires SenderOk(s, config, stream, received)
    ensures var (t, data) := SendStep(s, m);
      && SenderOk(t, config, SubmittedStream(s, stream, m), received)
      && GenuineData(data, SubmittedStream(s, stream, m)) && WellMade(data, config)
  {
    hide SenderOk, SendInv, SendStep, PlainAll, Normal, Carries, AllGenuine, GenuineData, Fragmented,
         WellMade, NothingLost, AckedIsReceived, Join, FitsSegment, OneMessage;
    SenderParts(s, config, stream, received);
    SendKeepsInv(s, m);
    SendShape(s, m);
    var cs := if s.closed then [] else Fragmented(m, |stream|);
    FragmentShape(m, |stream|);
    QueueGrows(PlainAll(s.queue), cs, |stream|, received);
    FragmentsGenuine(stream, m);
    GenuineGrows(PlainAll(s.queue), stream, cs);
    BothGenuine(PlainAll(s.queue), cs, stream + cs);
    FromShape(s, SendStep(s, m).0, SendStep(s, m).1, PlainAll(s.queue) + cs, stream + cs, received);
  }

  lemma BothGenuine(a: seq<Chunk>, b: seq<Chunk>, stream: seq<Chunk>)
    requires AllGenuine(a, stream) && (b == [] || AllGenuine(b, stream))
    ensures AllGenuine(a + b, stream)
  {
  }

  lemma SenderCloses(s: SendState, config: FlowConfig, stream: seq<Chunk>, received: seq<Range>)
    requires SenderOk(s, config, stream, received)
    ensures SenderOk(Closed(s), config, stream, received)
  {
    ClosedInv(s);
  }

  lemma SenderKeeps(s: SendState, config: FlowConfig, stream: seq<Chunk>, received: seq<Range>, after: seq<Range>)
    requires SenderOk(s, config, stream, received) && forall n: nat :: Covers(received, n) ==> Covers(after, n)
    ensures SenderOk(s, config, stream, after)
  {
    hide SendInv, AllGenuine, Covers, HasNumber;
  }

  // ------------------------------------------------------------------ channel

  lemma PackedLength(cipher: Cipher, key: Option<Bytes>, sid: nat, h: Header, c: RawChunk)
    requires CipherOk(cipher) && sid < U32_LIMIT && HeaderOk(h)
    ensures |Packed(cipher, key, sid, Body(h, [c]))| > |c.data|
  {
    hide Xor, CheckSum, HeaderBytes, Scramble;
    var body := Body(h, [c]);
    CheckedLength(body);
    ScrambleBound(sid, cipher.encrypt(KeyFor(key, sid), Checked(Padded(body))));
    assert |AllChunkBytes([c])| >= |c.data|;
  }

  lemma DataPacketLength(link: Link, h: Header, m: UserData)
    requires LinkOk(link) && HeaderOk(h)
    ensures |DataPacket(link, h, m)| > |UserDataBytes(m)|
  {
    hide Packed, Body, CipherOk, UserDataBytes;
    PackedLength(link.cipher, link.dataKey, link.receiverSid, h, RawChunk(CHUNK_USERDATA, UserDataBytes(m)));
  }

  lemma AckPacketLength(link: Link, h: Header, a: Ack)
    requires LinkOk(link) && HeaderOk(h)
    ensures |AckPacket(link, h, a)| > |RangeAckBytes(WireAck(link, a))|
  {
    hide Packed, Body, CipherOk, RangeAckBytes;
    PackedLength(link.cipher, link.ackKey, link.senderSid, h,
                 RawChunk(CHUNK_RANGE_ACK, RangeAckBytes(WireAck(link, a))));
  }

  lemma RoundedTruthful(a: RangeAck, received: seq<Range>)
    requires Truthful(a, received)
    ensures Truthful(Rounded(a), received)
  {
  }

  lemma OneChunkArrives(cipher: Cipher, key: Option<Bytes>, sid: nat, h: Header, c: RawChunk)
    requires CipherOk(cipher) && sid < U32_LIMIT && HeaderOk(h) && |c.data| < MAX_CHUNK
    ensures ChunksIn(cipher, key, Packed(cipher, key, sid, Body(h, [c]))) == [c]
  {
    hide Packed, Body, Opened;
    PacketRoundTrip(cipher, key, sid, h, [c]);
  }

  /** What the receiver decodes from a data packet is the message that the sender encoded. */
  lemma DataArrival(link: Link, h: Header, m: UserData)
    requires LinkOk(link) && HeaderOk(h) && |UserDataBytes(m)| < MAX_CHUNK && m.flowid == link.flow.flowid
    requires m.options.Some? ==> m.options == FlowOptions(link.flow.signature, link.flow.relFlowid)
    ensures DataIn(link, DataPacket(link, h, m)) == [m]
  {
    hide Packed, Body, ChunksIn, TakeUserData, UserDataBytes, FlowOptions, SignatureOk, CipherOk, Terminated;
    var c := RawChunk(CHUNK_USERDATA, UserDataBytes(m));
    OneChunkArrives(link.cipher, link.dataKey, link.receiverSid, h, c);
    FlowOptionsTerminated(link.flow.signature, link.flow.relFlowid);
    UserDataRoundTrip(m);
    assert FlowData([c][1..], link.flow.flowid) == [];
  }

  lemma AckArrival(link: Link, h: Header, a: Ack)
    requires LinkOk(link) && HeaderOk(h) && GapsFit(a.cumAck + 1, a.ranges)
    requires |RangeAckBytes(WireAck(link, a))| < MAX_CHUNK
    ensures AcksIn(link, AckPacket(link, h, a)) == [Rounded(WireAck(link, a))]
  {
    hide Packed, Body, ChunksIn, TakeRangeAck, RangeAckBytes, SignatureOk, CipherOk, GapsFit;
    var c := RawChunk(CHUNK_RANGE_ACK, RangeAckBytes(WireAck(link, a)));
    OneChunkArrives(link.cipher, link.ackKey, link.senderSid, h, c);
    RangeAckRoundTrip(WireAck(link, a));
    assert FlowAcks([c][1..], link.flow.flowid) == [];
  }

  lemma DataChannelKeeps(link: Link, before: set<Bytes>, sent: seq<UserData>, after: set<Bytes>, stream: seq<Chunk>)
    requires LinkOk(link) && CarriesData(link, before, sent, after)
    requires GenuineData(sent, stream) && WellMade(sent, link.flow)
    requires forall d :: d in before ==> GenuineData(DataIn(link, d), stream)
    ensures forall d :: d in after ==> GenuineData(DataIn(link, d), stream)
  {
    hide DataIn, Genuine, CipherOk, FlowOptions, DataPacket, UserDataBytes;
    forall d | d in after
      ensures GenuineData(DataIn(link, d), stream)
    {
      if d !in before {
        var h, i :| HeaderOk(h) && 0 <= i < |sent| && d == DataPacket(link, h, sent[i]);
        DataPacketLength(link, h, sent[i]);
        DataArrival(link, h, sent[i]);
      }
    }
  }

  lemma AckChannelKeeps(link: Link, before: set<Bytes>, sent: seq<Ack>, after: set<Bytes>, received: seq<Range>)
    requires LinkOk(link) && CarriesAcks(link, before, sent, after) && AcksTruthful(link, sent, received)
    requires forall d, a :: d in before && a in AcksIn(link, d) ==> Truthful(a, received)
    ensures forall d, a :: d in after && a in AcksIn(link, d) ==> Truthful(a, received)
  {
    hide AcksIn, Covers, CipherOk, GapsFit, AckPacket, RangeAckBytes, Truthful;
    forall d, a | d in after && a in AcksIn(link, d)
      ensures Truthful(a, received)
    {
      if d !in before {
        var h, i :| HeaderOk(h) && 0 <= i < |sent| && d == AckPacket(link, h, sent[i]);
        AckPacketLength(link, h, sent[i]);
        AckArrival(link, h, sent[i]);
        assert Truthful(WireAck(link, sent[i]), received);
        RoundedTruthful(WireAck(link, sent[i]), received);
      }
    }
  }

  // ------------------------------------------------------------------ reading

  lemma PrefixEnd(cs: seq<Chunk>, rest: seq<Chunk>)
    requires EndIndex(cs) < |cs|
    ensures EndIndex(cs + rest) == EndIndex(cs)
  {
    var e, f := EndIndex(cs), EndIndex(cs + rest);
    assert (cs + rest)[e] == cs[e];
    assert f < |cs| ==> (cs + rest)[f] == cs[f];
  }

  lemma StreamTaken(msgs: seq<Bytes>, j: nat)
    requires j <= |msgs|
    ensures |Stream(msgs[..j])| <= |Stream(msgs)|
    ensures j == |msgs| ==> Stream(msgs[..j]) == Stream(msgs)
  {
    StreamPrefix(msgs, j);
    assert j == |msgs| ==> msgs[..j] == msgs;
  }

  /** What read_message returns is the next message sent, and the ordered buffer moves to its end. */
  lemma ReadsNext(r: RecvState, msgs: seq<Bytes>, taken: nat)
    requires taken <= |msgs| && OrderedIs(r, Stream(msgs), |Stream(msgs[..taken])|)
    ensures var (t, got) := ReadStep(r);
      if got.None? then t == r
      else
        && taken < |msgs| && got.value == msgs[taken]
        && OrderedIs(t, Stream(msgs), |Stream(msgs[..taken + 1])|)
  {
    hide Stream, Fragmented, Join, EndIndex;
    var stream := Stream(msgs);
    var start := |Stream(msgs[..taken])|;
    var e := EndIndex(r.ordered);
    StreamTaken(msgs, taken);
    if e < |r.ordered| {
      var cs := Fragmented(msgs[taken], start);
      MessageSlot(msgs, taken);
      FragmentShape(msgs[taken], start);
      var rest := stream[start + |cs|..];
      ReadsBackOne(cs, rest);
      assert stream[start..] == r.ordered + stream[r.lastOrdered..];
      PrefixEnd(r.ordered, stream[r.lastOrdered..]);
      assert e == |cs| - 1;
      assert r.ordered[..e + 1] == stream[start..start + |cs|];
      assert r.ordered[e + 1..] == stream[start + |cs|..r.lastOrdered];
    }
  }

  // ----------------------------------------------------------- steps keep it all

  lemma NonEmptySnoc(msgs: seq<Bytes>, j: nat)
    requires j < |msgs|
    ensures NonEmpty(msgs[..j + 1]) == NonEmpty(msgs[..j]) + if msgs[j] == [] then [] else [msgs[j]]
  {
    assert msgs[..j + 1][..j] == msgs[..j];
    assert NonEmpty(msgs[..j]) + [] == NonEmpty(msgs[..j]);
  }

  /** The invariant of the two ends, and that what a step emits may go on the wire. */
  ghost predicate StepOk(link: Link, s: Sys, o: Outcome) {
    && Inv(link, o.sys)
    && o.sys.toReceiver == s.toReceiver && o.sys.toSender == s.toSender
    && GenuineData(o.data, Stream(o.sys.sent)) && WellMade(o.data, link.flow)
    && AcksTruthful(link, o.acks, o.sys.rcv.recvRanges)
  }

  /** Only the sender acts: the stream, the receiver and the channel are as they were. */
  lemma SenderActs(link: Link, s: Sys, snd: SendState, data: seq<UserData>)
    requires Inv(link, s)
    requires SenderOk(snd, link.flow, Stream(s.sent), s.rcv.recvRanges)
    requires GenuineData(data, Stream(s.sent)) && WellMade(data, link.flow)
    ensures StepOk(link, s, Outcome(s.(snd := snd), data, []))
  {
    hide SenderOk, ReceiverOk, GenuineData, WellMade, Stream, NonEmpty, DataIn, AcksIn, Truthful, GapsFit;
  }

  lemma AckStep(link: Link, s: Sys, d: Bytes)
    requires Inv(link, s) && d in s.toSender
    ensures StepOk(link, s, Step(link, s, AckArrives(d)))
  {
    hide StepOk, SenderOk, ReceiverOk, GenuineData, WellMade, Stream, NonEmpty, DataIn, AcksIn, Truthful,
         AcknowledgeAll;
    var (u, data) := AcknowledgeAll(s.snd, AcksIn(link, d));
    AcksArrived(s.snd, link.flow, AcksIn(link, d), Stream(s.sent), s.rcv.recvRanges);
    SenderActs(link, s, u, data);
  }

  lemma AlarmKeeps(link: Link, s: Sys)
    requires Inv(link, s)
    ensures StepOk(link, s, Step(link, s, RtxAlarm))
  {
    hide StepOk, SenderOk, ReceiverOk, GenuineData, WellMade, Stream, NonEmpty, DataIn, AcksIn, Truthful, AlarmStep;
    AlarmFires(s.snd, link.flow, Stream(s.sent), s.rcv.recvRanges);
    SenderActs(link, s, AlarmStep(s.snd).0, AlarmStep(s.snd).1);
  }

  lemma CloseKeeps(link: Link, s: Sys)
    requires Inv(link, s)
    ensures StepOk(link, s, Step(link, s, CloseSender))
  {
    hide StepOk, SenderOk, ReceiverOk, Stream, NonEmpty, DataIn, AcksIn, Truthful, Closed, Genuine, FlowOptions;
    SenderCloses(s.snd, link.flow, Stream(s.sent), s.rcv.recvRanges);
    SenderActs(link, s, Closed(s.snd), []);
  }

  lemma OrderedGrows(r: RecvState, stream: seq<Chunk>, more: seq<Chunk>, start: nat)
    requires ReceiverOk(r, stream, start)
    ensures ReceiverOk(r, stream + more, start)
  {
    hide Agreement;
    GenuineGrows(r.pending, stream, more);
    assert (stream + more)[start..r.lastOrdered] == stream[start..r.lastOrdered];
  }

  lemma ChannelGrows(link: Link, s: Sys, stream: seq<Chunk>, more: seq<Chunk>, received: seq<Range>)
    requires ChannelOk(link, s, stream, received)
    ensures ChannelOk(link, s, stream + more, received)
  {
    hide DataIn, AcksIn, Truthful;
  }

  lemma SubmitStep(link: Link, s: Sys, m: Bytes)
    requires Inv(link, s)
    ensures StepOk(link, s, Step(link, s, Submit(m)))
  {
    hide SenderOk, ReceiverOk, GenuineData, WellMade, Stream, NonEmpty, DataIn, AcksIn, Truthful, SendStep,
         Fragmented, GapsFit;
    var stream := Stream(s.sent);
    MessageSubmitted(s.snd, link.flow, m, stream, s.rcv.recvRanges);
    if s.snd.closed {
      assert stream + [] == stream;
    } else {
      StreamSnoc(s.sent, m);
      assert (s.sent + [m])[..s.taken] == s.sent[..s.taken];
      OrderedGrows(s.rcv, stream, Fragmented(m, |stream|), |Stream(s.sent[..s.taken])|);
      ChannelGrows(link, s, stream, Fragmented(m, |stream|), s.rcv.recvRanges);
    }
  }

  /** Only the receiver acts, and what it has received only grows. */
  lemma ReceiverActs(link: Link, s: Sys, rcv: RecvState, acks: seq<Ack>)
    requires Inv(link, s)
    requires ReceiverOk(rcv, Stream(s.sent), |Stream(s.sent[..s.taken])|)
    requires forall n: nat :: Covers(s.rcv.recvRanges, n) ==> Covers(rcv.recvRanges, n)
    requires AcksTruthful(link, acks, rcv.recvRanges)
    ensures StepOk(link, s, Outcome(s.(rcv := rcv), [], acks))
  {
    hide SenderOk, ReceiverOk, Stream, NonEmpty, DataIn, AcksIn, Covers, AcksTruthful, Truthful, Genuine, FlowOptions;
    forall d, a | d in s.toSender && a in AcksIn(link, d)
      ensures Truthful(a, rcv.recvRanges)
    {
      TruthfulGrows(a, s.rcv.recvRanges, rcv.recvRanges);
    }
    SenderKeeps(s.snd, link.flow, Stream(s.sent), s.rcv.recvRanges, rcv.recvRanges);
  }

  lemma DataStep(link: Link, s: Sys, d: Bytes)
    requires Inv(link, s) && d in s.toReceiver
    ensures StepOk(link, s, Step(link, s, DataArrives(d)))
  {
    hide StepOk, SenderOk, ReceiverOk, GenuineData, Stream, NonEmpty, DataIn, AcksIn, Truthful, AcksTruthful,
         ReceiveAll, Covers;
    var (r, acks) := ReceiveAll(s.rcv, DataIn(link, d));
    ReceiveGenuine(link, s.rcv, DataIn(link, d), Stream(s.sent), |Stream(s.sent[..s.taken])|);
    ReceiverActs(link, s, r, acks);
  }

  lemma AfterAckOk(link: Link, r: RecvState, stream: seq<Chunk>, start: nat)
    requires ReceiverOk(r, stream, start)
    ensures ReceiverOk(AfterAck(r), stream, start) && AcksTruthful(link, [AckOf(r)], AfterAck(r).recvRanges)
  {
    CoreSuffices(r);
    CoreSuffices(AfterAck(r));
    AckIsTruthful(link, r);
  }

  lemma AckDueStep(link: Link, s: Sys)
    requires Inv(link, s)
    ensures StepOk(link, s, Step(link, s, AckDue))
  {
    hide StepOk, SenderOk, ReceiverOk, GenuineData, Stream, NonEmpty, DataIn, AcksIn, Truthful, AcksTruthful,
         Covers, AckOf;
    AfterAckOk(link, s.rcv, Stream(s.sent), |Stream(s.sent[..s.taken])|);
    ReceiverActs(link, s, AfterAck(s.rcv), [AckOf(s.rcv)]);
  }

  lemma ReadKeepsRest(r: RecvState)
    ensures ReadStep(r).0.recvRanges == r.recvRanges && ReadStep(r).0.pending == r.pending
  {
  }

  lemma ReadMessageStep(link: Link, s: Sys)
    requires Inv(link, s)
    ensures StepOk(link, s, Step(link, s, ReadMessage))
  {
    hide SenderOk, GenuineData, WellMade, Stream, NonEmpty, DataIn, AcksIn, Truthful, AcksTruthful,
         Covers, ReadStep, Agreement, OrderedIs, AllGenuine;
    ReadAgrees(s.rcv);
    ReadKeepsRest(s.rcv);
    ReadsNext(s.rcv, s.sent, s.taken);
    NothingEmitted(link, Stream(s.sent), s.rcv.recvRanges);
    if ReadStep(s.rcv).1.Some? {
      NonEmptySnoc(s.sent, s.taken);
    }
  }

  lemma NothingEmitted(link: Link, stream: seq<Chunk>, received: seq<Range>)
    ensures GenuineData([], stream) && WellMade([], link.flow) && AcksTruthful(link, [], received)
  {
  }

  lemma ReadAgrees(r: RecvState)
    requires Agreement(r)
    ensures Agreement(ReadStep(r).0)
  {
    AgreementSound(r);
    ReadAgreement(r);
  }

  lemma QuietStep(link: Link, s: Sys)
    requires Inv(link, s)
    ensures StepOk(link, s, Step(link, s, Quiet))
  {
    hide SenderOk, ReceiverOk, Stream, NonEmpty, DataIn, AcksIn, Truthful, GenuineData, WellMade, AcksTruthful;
    NothingEmitted(link, Stream(s.sent), s.rcv.recvRanges);
  }

  lemma StepKeeps(link: Link, s: Sys, e: Event)
    requires Inv(link, s) && Enabled(s, e)
    ensures StepOk(link, s, Step(link, s, e))
  {
    hide Inv, StepOk, Step;
    match e
    case Submit(m) => SubmitStep(link, s, m);
    case RtxAlarm => AlarmKeeps(link, s);
    case CloseSender => CloseKeeps(link, s);
    case AckArrives(d) => AckStep(link, s, d);
    case DataArrives(d) => DataStep(link, s, d);
    case AckDue => AckDueStep(link, s);
    case ReadMessage => ReadMessageStep(link, s);
    case Quiet => QuietStep(link, s);
  }

  /** Every event of either end, and whatever the channel makes of it, keeps the invariant. */
  lemma NextKeepsInv(link: Link, s: Sys, e: Event, t: Sys)
    requires LinkOk(link)
    ensures Inv(link, s) && Next(link, s, e, t) ==> Inv(link, t)
  {
    hide LinkOk, CipherOk, Step, SenderOk, ReceiverOk, Stream, NonEmpty, DataIn, AcksIn, Truthful, GenuineData,
         WellMade, AcksTruthful, CarriesData, CarriesAcks;
    if Inv(link, s) && Next(link, s, e, t) {
      var o := Step(link, s, e);
      StepKeeps(link, s, e);
      DataChannelKeeps(link, s.toReceiver, o.data, t.toReceiver, Stream(o.sys.sent));
      AckChannelKeeps(link, s.toSender, o.acks, t.toSender, o.sys.rcv.recvRanges);
    }
  }

  lemma InitialInv(link: Link)
    ensures Inv(link, Initial(link))
  {
    var sent: seq<Bytes> := [];
    assert sent[..0] == [];
  }

  lemma {:induction false} RunKeepsInv(link: Link, states: seq<Sys>, events: seq<Event>)
    requires LinkOk(link) && Run(link, states, events)
    ensures Inv(link, states[|events|])
    decreases |events|
  {
    hide LinkOk, Next, Inv, Initial;
    if events == [] {
      InitialInv(link);
    } else {
      var n := |events| - 1;
      assert states[..n + 1][n] == states[n];
      RunKeepsInv(link, states[..n + 1], events[..n]);
      assert Next(link, states[n], events[n], states[n + 1]);
      NextKeepsInv(link, states[n], events[n], states[n + 1]);
    }
  }

  // ----------------------------------------------------------------- theorems

  lemma {:induction false} NonEmptyPrefix(msgs: seq<Bytes>, j: nat)
    requires j <= |msgs|
    ensures NonEmpty(msgs[..j]) <= NonEmpty(msgs)
    decreases |msgs|
  {
    if j == |msgs| {
      assert msgs[..j] == msgs;
    } else {
      var n := |msgs| - 1;
      NonEmptyPrefix(msgs[..n], j);
      assert msgs[..n][..j] == msgs[..j];
    }
  }

  /**
   * Reliable delivery: in every run, over every channel, what has been received is a prefix of the
   * non-empty messages that were sent, intact, in order and without repeats.
   */
  lemma DeliveredInOrder(link: Link, states: seq<Sys>, events: seq<Event>)
    requires LinkOk(link) && Run(link, states, events)
    ensures var s := states[|events|]; s.delivered <= NonEmpty(s.sent)
  {
    hide LinkOk, Next, NonEmpty;
    RunKeepsInv(link, states, events);
    NonEmptyPrefix(states[|events|].sent, states[|events|].taken);
  }

  lemma {:induction false} NonEmptyExactly(msgs: seq<Bytes>)
    ensures |NonEmpty(msgs)| <= |msgs|
    ensures NonEmpty(msgs) == msgs <==> [] !in msgs
  {
    if msgs != [] {
      var n := |msgs| - 1;
      NonEmptyExactly(msgs[..n]);
      assert msgs == msgs[..n] + [msgs[n]];
      assert [] in msgs <==> [] in msgs[..n] || msgs[n] == [];
      if msgs[n] != [] {
        assert NonEmpty(msgs)[..|NonEmpty(msgs)| - 1] == NonEmpty(msgs[..n]);
      }
    }
  }

  /** What recv has returned is all that was read, message for message, exactly when no message was empty. */
  lemma DeliveredExactly(link: Link, states: seq<Sys>, events: seq<Event>)
    requires LinkOk(link) && Run(link, states, events)
    ensures var s := states[|events|];
      && s.taken <= |s.sent|
      && (s.delivered == s.sent[..s.taken] <==> [] !in s.sent[..s.taken])
  {
    hide LinkOk, Next, NonEmpty, SenderOk, ReceiverOk, ChannelOk;
    RunKeepsInv(link, states, events);
    NonEmptyExactly(states[|events|].sent[..states[|events|].taken]);
  }

  /** Nothing is discarded too early: every number handed out is queued at the sender or has been received. */
  lemma NothingDiscardedEarly(link: Link, states: seq<Sys>, events: seq<Event>)
    requires LinkOk(link) && Run(link, states, events)
    ensures var s := states[|events|];
      && (forall n: nat :: 1 <= n <= s.snd.lastSeqnum ==> HasNumber(s.snd.queue, n) || Covers(s.rcv.recvRanges, n))
      && (forall n: nat :: Covers(s.snd.ackRanges, n) ==> n == 0 || Covers(s.rcv.recvRanges, n))
      && (forall d, a :: d in s.toSender && a in AcksIn(link, d) ==> Truthful(a, s.rcv.recvRanges))
  {
    hide LinkOk, Next, Covers, HasNumber, SendInv, AllGenuine, ReceiverOk, AcksIn, DataIn, Stream, Truthful;
    RunKeepsInv(link, states, events);
  }

  /** Both ends keep their own invariants in every run of the closed loop. */
  lemma EndsStaySound(link: Link, states: seq<Sys>, events: seq<Event>)
    requires LinkOk(link) && Run(link, states, events)
    ensures SendInv(states[|events|].snd) && Agreement(states[|events|].rcv)
  {
    hide LinkOk, Next, SendInv, Agreement;
    RunKeepsInv(link, states, events);
  }

  lemma AllNumbersArrived(r: RecvState, stream: seq<Chunk>, start: nat)
    requires ReceiverOk(r, stream, start)
    requires forall n: nat :: 1 <= n <= |stream| ==> Covers(r.recvRanges, n)
    ensures r.lastOrdered == |stream| && r.ordered == stream[start..]
  {
    NextIsMissing(r);
  }

  lemma NextIsMissing(r: RecvState)
    requires Agreement(r)
    ensures !Covers(r.recvRanges, r.lastOrdered + 1)
  {
    assert !HasNumber(r.pending, r.lastOrdered + 1);
  }

  lemma AllReadBack(r: RecvState, msgs: seq<Bytes>, taken: nat)
    requires taken <= |msgs| && ReceiverOk(r, Stream(msgs), |Stream(msgs[..taken])|)
    requires forall n: nat :: 1 <= n <= |Stream(msgs)| ==> Covers(r.recvRanges, n)
    ensures r.lastOrdered == |Stream(msgs)| && msgs[..taken] + ReadAll(r.ordered) == msgs
  {
    hide ReceiverOk, Covers, Stream, ReadAll;
    StreamTaken(msgs, taken);
    AllNumbersArrived(r, Stream(msgs), |Stream(msgs[..taken])|);
    ReadsBackFrom(msgs, taken);
  }

  /**
   * The queue always holds what is missing: if every chunk in it reaches the receiver, in any order and
   * any number of times, all is in order, and what was taken before, followed by what repeated reading
   * now returns, is exactly what was sent.
   */
  lemma QueueSuffices(link: Link, states: seq<Sys>, events: seq<Event>, ms: seq<UserData>)
    requires LinkOk(link) && Run(link, states, events)
    requires forall k :: 0 <= k < |ms| ==> Carries(ms[k], link.flow, states[|events|].snd.queue)
    requires forall n: nat :: HasNumber(states[|events|].snd.queue, n) ==> Names(ms, n)
    ensures var s := states[|events|];
      var t := ReceiveAll(s.rcv, ms).0;
      && t.lastOrdered == s.snd.lastSeqnum
      && s.taken <= |s.sent| && s.delivered == NonEmpty(s.sent[..s.taken])
      && s.sent[..s.taken] + ReadAll(t.ordered) == s.sent
  {
    hide LinkOk, Next, NonEmpty, Stream, ReadAll, SendInv, GenuineData, PlainAll, Carries, Covers, HasNumber, Names,
         ReceiverOk, ChannelOk, AcksTruthful;
    var s := states[|events|];
    var t := ReceiveAll(s.rcv, ms).0;
    RunKeepsInv(link, states, events);
    CarriedIsGenuine(ms, link.flow, s.snd.queue, Stream(s.sent));
    ReceiveGenuine(link, s.rcv, ms, Stream(s.sent), |Stream(s.sent[..s.taken])|);
    AllReadBack(t, s.sent, s.taken);
  }

  /** With an empty queue nothing is missing any more. */
  lemma EmptyQueueMeansComplete(link: Link, states: seq<Sys>, events: seq<Event>)
    requires LinkOk(link) && Run(link, states, events) && states[|events|].snd.queue == []
    ensures var s := states[|events|];
      s.taken <= |s.sent| && s.sent[..s.taken] + ReadAll(s.rcv.ordered) == s.sent
  {
    hide LinkOk, Next, ReadAll;
    QueueSuffices(link, states, events, []);
  }

  lemma AckNamesAll(r: RecvState, n: nat)
    requires Agreement(r) && n >= 1
    ensures n <= AckOf(r).cumAck || Covers(AckOf(r).ranges, n) <==> Covers(r.recvRanges, n)
  {
    PendingRangesMeaning(r.pending);
  }

  lemma KeptNumbers(queue: seq<Chunk>, acked: seq<Range>, n: nat)
    ensures HasNumber(Kept(queue, acked), n) <==> HasNumber(queue, n) && !Covers(acked, n)
  {
    hide Covers, Kept;
    KeptWithin(queue, acked);
    var kept := Kept(queue, acked);
    if HasNumber(queue, n) && !Covers(acked, n) {
      var i :| 0 <= i < |queue| && queue[i].seqNum == n;
      assert queue[i] in kept;
    }
    if HasNumber(kept, n) {
      var i :| 0 <= i < |kept| && kept[i].seqNum == n;
      assert kept[i] in queue;
    }
  }

  lemma QueuedWithin(s: SendState, n: nat)
    requires SendInv(s) && HasNumber(s.queue, n)
    ensures 1 <= n <= s.lastSeqnum
  {
    var i :| 0 <= i < |s.queue| && s.queue[i].seqNum == n;
    assert s.queue[i] in s.queue;
  }

  /** An ack of the receiver's present state leaves in the queue exactly the numbers it has not received. */
  lemma FreshAckLeavesMissing(link: Link, states: seq<Sys>, events: seq<Event>, n: nat)
    requires LinkOk(link) && Run(link, states, events)
    ensures var s := states[|events|];
      var a := AckOf(s.rcv);
      var t := RangeAckStep(s.snd, a.bufAvail, a.cumAck, a.ranges).0;
      HasNumber(t.queue, n) <==> 1 <= n <= s.snd.lastSeqnum && !Covers(s.rcv.recvRanges, n)
  {
    hide LinkOk, Next, NonEmpty, Stream, SendInv, PlainAll, Carries, Covers, HasNumber, AckOf, RangeAckStep, Kept,
         AckedRanges, AllGenuine, ChannelOk, Normal, Agreement, OrderedIs;
    var s := states[|events|];
    RunKeepsInv(link, states, events);
    var a := AckOf(s.rcv);
    var t := RangeAckStep(s.snd, a.bufAvail, a.cumAck, a.ranges).0;
    SenderParts(s.snd, link.flow, Stream(s.sent), s.rcv.recvRanges);
    AckShape(s.snd, a.bufAvail, a.cumAck, a.ranges);
    HasPlain(t.queue, n);
    HasPlain(s.snd.queue, n);
    KeptNumbers(PlainAll(s.snd.queue), AckedRanges(s.snd, a.cumAck, a.ranges), n);
    AckedCovers(s.snd, a.cumAck, a.ranges, n);
    if n >= 1 {
      AckNamesAll(s.rcv, n);
    }
    if HasNumber(s.snd.queue, n) {
      QueuedWithin(s.snd, n);
    }
  }

  // ------------------------------------------------------------------ methods

  lemma ReceiveSplit(r: RecvState, m: UserData, ms: seq<UserData>, done: seq<Ack>)
    ensures var (u, ack) := UserdataStep(r, m.frag, m.seqNum, m.data);
      var now := if ack.Some? then done + [ack.value] else done;
      && ReceiveAll(r, [m] + ms).0 == ReceiveAll(u, ms).0
      && done + ReceiveAll(r, [m] + ms).1 == now + ReceiveAll(u, ms).1
  {
    hide UserdataStep;
    assert ([m] + ms)[1..] == ms;
  }

  /** A datagram reaches the receiving session, which hands every user data chunk of the flow to it. */
  method PacketReceived(link: Link, flow: RecvFlow, datagram: Bytes) returns (acks: seq<Ack>)
    requires flow.Valid() && flow.flowid == link.flow.flowid
    modifies flow, flow.unorderedRecvBuf, flow.recvRanges
    ensures flow.Valid() && (flow.Model(), acks) == ReceiveAll(old(flow.Model()), DataIn(link, datagram))
  {
    hide UserdataStep, ReceiveAll, Opened, TakeUserData;
    acks := [];
    var packet := DecodePacket(link.cipher, datagram, link.dataKey);
    var chunks := if packet.Packet? then packet.chunks else [];
    ghost var goal := ReceiveAll(flow.Model(), DataIn(link, datagram));
    assert chunks[0..] == chunks;
    assert [] + goal.1 == goal.1;
    for i := 0 to |chunks|
      invariant flow.Valid()
      invariant ReceiveAll(flow.Model(), FlowData(chunks[i..], flow.flowid)).0 == goal.0
      invariant acks + ReceiveAll(flow.Model(), FlowData(chunks[i..], flow.flowid)).1 == goal.1
    {
      assert chunks[i..][0] == chunks[i] && chunks[i..][1..] == chunks[i + 1..];
      if chunks[i].kind == CHUNK_USERDATA {
        var m := DecodeUserdataChunk(chunks[i].data);
        if m.flowid == flow.flowid {
          ReceiveSplit(flow.Model(), m, FlowData(chunks[i + 1..], flow.flowid), acks);
          var ack := flow.OnUserdata(m.frag, m.seqNum, m.data);
          acks := if ack.Some? then acks + [ack.value] else acks;
        }
      }
    }
    assert chunks[|chunks|..] == [] && acks + [] == acks;
    ReceiveNothing(flow.Model());
  }

  lemma ReceiveNothing(r: RecvState)
    ensures ReceiveAll(r, []) == (r, [])
  {
  }

  lemma AcknowledgeSplit(s: SendState, a: RangeAck, acks: seq<RangeAck>, done: seq<UserData>)
    ensures var (u, data) := RangeAckStep(s, a.bufAvail, a.cumAck, a.ranges);
      && AcknowledgeAll(s, [a] + acks).0 == AcknowledgeAll(u, acks).0
      && done + AcknowledgeAll(s, [a] + acks).1 == done + data + AcknowledgeAll(u, acks).1
  {
    hide RangeAckStep;
    assert ([a] + acks)[1..] == acks;
  }

  lemma AcknowledgeNothing(s: SendState)
    ensures AcknowledgeAll(s, []) == (s, [])
  {
  }

  /** A datagram reaches the sending session, which hands every range ack of the flow to it. */
  method PacketAcknowledged(link: Link, flow: SendFlow, datagram: Bytes) returns (sent: seq<UserData>)
    requires flow.Valid() && flow.config == link.flow
    modifies flow, flow.ackRanges
    ensures flow.Valid() && (flow.Model(), sent) == AcknowledgeAll(old(flow.Model()), AcksIn(link, datagram))
  {
    hide RangeAckStep, AcknowledgeAll, Opened, TakeRangeAck, SendInv;
    sent := [];
    var packet := DecodePacket(link.cipher, datagram, link.ackKey);
    var chunks := if packet.Packet? then packet.chunks else [];
    ghost var goal := AcknowledgeAll(flow.Model(), AcksIn(link, datagram));
    assert chunks[0..] == chunks;
    assert [] + goal.1 == goal.1;
    for i := 0 to |chunks|
      invariant flow.Valid()
      invariant AcknowledgeAll(flow.Model(), FlowAcks(chunks[i..], link.flow.flowid)).0 == goal.0
      invariant sent + AcknowledgeAll(flow.Model(), FlowAcks(chunks[i..], link.flow.flowid)).1 == goal.1
    {
      assert chunks[i..][0] == chunks[i] && chunks[i..][1..] == chunks[i + 1..];
      if chunks[i].kind == CHUNK_RANGE_ACK {
        var a := DecodeRangeAckChunk(chunks[i].data);
        if a.flowid == link.flow.flowid {
          AcknowledgeSplit(flow.Model(), a, FlowAcks(chunks[i + 1..], link.flow.flowid), sent);
          var more := flow.OnRangeAck(a.bufAvail, a.cumAck, a.ranges);
          sent := sent + more;
        }
      }
    }
    assert chunks[|chunks|..] == [] && sent + [] == sent;
    AcknowledgeNothing(flow.Model());
  }
}
