/** The sending half of a flow: queue, retransmission, windows and acknowledgements. */
module SendFlows {
  import opened ByteBuffers
  import opened ChunkCodecs
  import opened ChunkHeap
  import opened Congestion
  import opened Fragments
  import opened Ranges
  import opened Timers
  import opened Vlus

  const INIT_RECV_WND := SMSS * 30
  const MAX_RESEND_COUNT := 10
  const MAX_BURST := 6
  const NAK_LIMIT := 3

  datatype FlowConfig = FlowConfig(flowid: nat, relFlowid: nat, signature: Option<Bytes>, tuning: Tuning)

  datatype SendState = SendState(
    config: FlowConfig,
    lastSeqnum: nat,
    queue: seq<Chunk>,
    inflightBytes: int,
    recvWnd: nat,
    window: Window,
    ackRanges: seq<Range>,
    dataPackets: nat,
    probing: bool,
    rtxAlarm: bool,
    tsn: nat,
    closed: bool,
    losses: nat)

  function OpenedSend(config: FlowConfig): SendState {
    SendState(config, 0, [], 0, INIT_RECV_WND, OPEN_WINDOW, [], 0, false, false, 0, false, 0)
  }

  // ------------------------------------------------ transmission of the queue

  function InFlightBytes(cs: seq<Chunk>): nat {
    if cs == [] then 0
    else InFlightBytes(cs[..|cs| - 1]) + if cs[|cs| - 1].inFlight then |cs[|cs| - 1].data| else 0
  }

  function SendLimit(s: SendState): nat {
    Min(s.recvWnd, s.window.congWnd)
  }

  predicate SendBudget(s: SendState) {
    s.inflightBytes < SendLimit(s)
  }

  predicate MaySend(s: SendState) {
    SendBudget(s) && s.dataPackets < MAX_BURST
  }

  /** Unsigned subtraction wraps; on a sorted queue it never does. */
  function FsnOffset(cs: seq<Chunk>, i: nat): nat
    requires i < |cs|
  {
    Minus(cs[i].seqNum, cs[0].seqNum)
  }

  function UserDataOf(s: SendState, i: nat): UserData
    requires i < |s.queue|
  {
    var c := s.queue[i];
    UserData(c.frag, s.config.flowid, c.seqNum, FsnOffset(s.queue, i), c.data,
             if c.seqNum == 1 then FlowOptions(s.config.signature, s.config.relFlowid) else None,
             false, false)
  }

  function Launched(c: Chunk, tsn: nat): Chunk {
    c.(sendCount := c.sendCount + 1, nakCount := 0, inFlight := true, tsn := tsn)
  }

  function Transmitted(s: SendState, i: nat): SendState
    requires i < |s.queue|
  {
    s.(queue := s.queue[i := Launched(s.queue[i], s.tsn + 1)],
       inflightBytes := s.inflightBytes + |s.queue[i].data|,
       dataPackets := s.dataPackets + 1, rtxAlarm := true, tsn := s.tsn + 1)
  }

  function TrySendFrom(s: SendState, i: nat): (SendState, seq<UserData>)
    requires i <= |s.queue|
    decreases |s.queue| - i
  {
    if i == |s.queue| || !MaySend(s) then (s, [])
    else if s.queue[i].inFlight then TrySendFrom(s, i + 1)
    else
      var (t, rest) := TrySendFrom(Transmitted(s, i), i + 1);
      (t, [UserDataOf(s, i)] + rest)
  }

  // --------------------------------------------------------------------- send

  function Enqueued(s: SendState, data: Bytes): SendState {
    var cs := Fragmented(data, s.lastSeqnum);
    s.(queue := s.queue + cs, lastSeqnum := s.lastSeqnum + |cs|)
  }

  /** A closed flow refuses the message and changes nothing. */
  function SendStep(s: SendState, data: Bytes): (SendState, seq<UserData>) {
    if s.closed then (s, []) else TrySendFrom(Enqueued(s, data), 0)
  }

  // ------------------------------------------------------------ acknowledgement

  function Kept(cs: seq<Chunk>, acked: seq<Range>): seq<Chunk> {
    if cs == [] then []
    else
      var c := cs[|cs| - 1];
      var rest := Kept(cs[..|cs| - 1], acked);
      if Covers(acked, c.seqNum) then rest else rest + [c]
  }

  function Removed(cs: seq<Chunk>, acked: seq<Range>): seq<Chunk> {
    if cs == [] then []
    else
      var c := cs[|cs| - 1];
      var rest := Removed(cs[..|cs| - 1], acked);
      if Covers(acked, c.seqNum) then rest + [c] else rest
  }

  function MaxTsn(cs: seq<Chunk>): nat {
    if cs == [] then 0 else Max(MaxTsn(cs[..|cs| - 1]), cs[|cs| - 1].tsn)
  }

  predicate Overtaken(c: Chunk, maxTsn: nat) {
    c.inFlight && c.tsn < maxTsn
  }

  predicate LostByNak(c: Chunk, maxTsn: nat) {
    Overtaken(c, maxTsn) && c.nakCount + 1 >= NAK_LIMIT
  }

  function Nak(c: Chunk, maxTsn: nat): Chunk {
    if Overtaken(c, maxTsn) then c.(nakCount := c.nakCount + 1, inFlight := c.nakCount + 1 < NAK_LIMIT) else c
  }

  function NakAll(cs: seq<Chunk>, maxTsn: nat): seq<Chunk> {
    seq(|cs|, i requires 0 <= i < |cs| => Nak(cs[i], maxTsn))
  }

  function LostByNaks(cs: seq<Chunk>, maxTsn: nat): seq<Chunk> {
    if cs == [] then []
    else
      var c := cs[|cs| - 1];
      var rest := LostByNaks(cs[..|cs| - 1], maxTsn);
      if LostByNak(c, maxTsn) then rest + [c] else rest
  }

  predicate AnyNak(cs: seq<Chunk>, maxTsn: nat) {
    exists i :: 0 <= i < |cs| && Overtaken(cs[i], maxTsn)
  }

  function AckedRanges(s: SendState, cumAck: nat, ranges: seq<Range>): seq<Range> {
    AddedAll(Added(s.ackRanges, Range(0, cumAck + 1)), ranges)
  }

  /** The first half of on_range_ack: what is acknowledged leaves the queue. */
  function Acked(s: SendState, cumAck: nat, ranges: seq<Range>): SendState {
    var acked := AckedRanges(s, cumAck, ranges);
    s.(dataPackets := 0, ackRanges := acked, queue := Kept(s.queue, acked),
       inflightBytes := s.inflightBytes - InFlightBytes(Removed(s.queue, acked)))
  }

  predicate AckIsValid(s: SendState, bufAvail: nat, removed: seq<Chunk>) {
    removed != [] || (bufAvail > 0 && s.probing)
  }

  function Outstanding(s: SendState): nat {
    if s.inflightBytes >= 0 then s.inflightBytes else 0
  }

  /** The second half: negative acks, windows and the alarm; pre is the state before the ack. */
  function Responded(pre: SendState, s: SendState, bufAvail: nat, removed: seq<Chunk>): SendState {
    var maxTsn := MaxTsn(removed);
    var lost := LostByNaks(s.queue, maxTsn);
    s.(queue := NakAll(s.queue, maxTsn),
       inflightBytes := s.inflightBytes - SumData(lost),
       losses := s.losses + |lost|,
       probing := bufAvail == 0,
       recvWnd := bufAvail,
       window := Updated(s.config.tuning, s.window, lost != [], true, AnyNak(s.queue, maxTsn),
                         InFlightBytes(removed), Outstanding(pre)))
  }

  function RangeAckStep(s: SendState, bufAvail: nat, cumAck: nat, ranges: seq<Range>): (SendState, seq<UserData>) {
    var removed := Removed(s.queue, AckedRanges(s, cumAck, ranges));
    var acked := Acked(s, cumAck, ranges);
    if !AckIsValid(s, bufAvail, removed) then (acked, [])
    else TrySendFrom(Responded(s, acked, bufAvail, removed), 0)
  }

  // -------------------------------------------------------------------- timeout

  /** The first chunk that was sent too often; the length of the queue when there is none. */
  function ExhaustedIndex(cs: seq<Chunk>): nat {
    if cs == [] then 0
    else if cs[0].inFlight && cs[0].sendCount > MAX_RESEND_COUNT then 0
    else 1 + ExhaustedIndex(cs[1..])
  }

  function InFlightCount(cs: seq<Chunk>): nat {
    if cs == [] then 0
    else InFlightCount(cs[..|cs| - 1]) + if cs[|cs| - 1].inFlight then 1 else 0
  }

  function Grounded(cs: seq<Chunk>): seq<Chunk> {
    seq(|cs|, i requires 0 <= i < |cs| => cs[i].(inFlight := false))
  }

  function LoseFirst(s: SendState, n: nat): SendState
    requires n <= |s.queue|
  {
    s.(queue := Grounded(s.queue[..n]) + s.queue[n..],
       inflightBytes := s.inflightBytes - InFlightBytes(s.queue[..n]),
       losses := s.losses + InFlightCount(s.queue[..n]))
  }

  function Closed(s: SendState): SendState {
    s.(closed := true, rtxAlarm := false, probing := false)
  }

  /** Also says whether the session's timer is to be backed off. */
  function AlarmStep(s: SendState): (SendState, seq<UserData>, bool) {
    var n := ExhaustedIndex(s.queue);
    if n < |s.queue| then (Closed(LoseFirst(s, n)), [], false)
    else
      ExhaustedWithin(s.queue);
      var anyLoss := InFlightCount(s.queue) > 0;
      var t := LoseFirst(s, |s.queue|);
      var (u, sent) := TrySendFrom(t.(window := TimedOut(s.window, anyLoss), dataPackets := 0), 0);
      (u, sent, anyLoss)
  }

  lemma {:induction false} ExhaustedWithin(cs: seq<Chunk>)
    ensures ExhaustedIndex(cs) <= |cs|
    ensures forall k :: 0 <= k < ExhaustedIndex(cs) ==> !(cs[k].inFlight && cs[k].sendCount > MAX_RESEND_COUNT)
    ensures var e := ExhaustedIndex(cs);
      e < |cs| ==> cs[e].inFlight && cs[e].sendCount > MAX_RESEND_COUNT
  {
    if cs != [] && !(cs[0].inFlight && cs[0].sendCount > MAX_RESEND_COUNT) {
      ExhaustedWithin(cs[1..]);
    }
  }

  // ----------------------------------------------------- sums over the queue

  function Flying(c: Chunk): nat {
    if c.inFlight then |c.data| else 0
  }

  lemma InFlightSnoc(cs: seq<Chunk>, c: Chunk)
    ensures InFlightBytes(cs + [c]) == InFlightBytes(cs) + Flying(c)
  {
    assert (cs + [c])[..|cs|] == cs;
  }

  lemma {:induction false} InFlightConcat(a: seq<Chunk>, b: seq<Chunk>)
    ensures InFlightBytes(a + b) == InFlightBytes(a) + InFlightBytes(b)
    decreases |b|
  {
    if b == [] {
      assert a + b == a;
    } else {
      var n := |b| - 1;
      assert a + b == (a + b[..n]) + [b[n]];
      InFlightConcat(a, b[..n]);
      InFlightSnoc(a + b[..n], b[n]);
    }
  }

  lemma InFlightUpdate(cs: seq<Chunk>, i: nat, c: Chunk)
    requires i < |cs|
    ensures InFlightBytes(cs[i := c]) == InFlightBytes(cs) - Flying(cs[i]) + Flying(c)
  {
    assert cs == cs[..i] + [cs[i]] + cs[i + 1..];
    assert cs[i := c] == cs[..i] + [c] + cs[i + 1..];
    InFlightSnoc(cs[..i], cs[i]);
    InFlightSnoc(cs[..i], c);
    InFlightConcat(cs[..i] + [cs[i]], cs[i + 1..]);
    InFlightConcat(cs[..i] + [c], cs[i + 1..]);
  }

  lemma {:induction false} NothingInFlight(cs: seq<Chunk>)
    requires forall i :: 0 <= i < |cs| ==> !cs[i].inFlight
    ensures InFlightBytes(cs) == 0
  {
    if cs != [] {
      NothingInFlight(cs[..|cs| - 1]);
    }
  }

  lemma {:induction false} SplitByAck(cs: seq<Chunk>, acked: seq<Range>)
    ensures InFlightBytes(cs) == InFlightBytes(Kept(cs, acked)) + InFlightBytes(Removed(cs, acked))
  {
    hide Covers;
    if cs != [] {
      var n := |cs| - 1;
      SplitByAck(cs[..n], acked);
      InFlightSnoc(Kept(cs[..n], acked), cs[n]);
      InFlightSnoc(Removed(cs[..n], acked), cs[n]);
    }
  }

  lemma NakAllSnoc(cs: seq<Chunk>, maxTsn: nat)
    requires cs != []
    ensures NakAll(cs, maxTsn) == NakAll(cs[..|cs| - 1], maxTsn) + [Nak(cs[|cs| - 1], maxTsn)]
  {
  }

  lemma {:induction false} NakAccounting(cs: seq<Chunk>, maxTsn: nat)
    ensures InFlightBytes(NakAll(cs, maxTsn)) == InFlightBytes(cs) - SumData(LostByNaks(cs, maxTsn))
  {
    if cs != [] {
      var n := |cs| - 1;
      var lost := LostByNaks(cs[..n], maxTsn);
      NakAccounting(cs[..n], maxTsn);
      NakAllSnoc(cs, maxTsn);
      InFlightSnoc(NakAll(cs[..n], maxTsn), Nak(cs[n], maxTsn));
      SumDataConcat(lost, [cs[n]]);
      assert SumData([cs[n]]) == |cs[n].data| + SumData([]);
    }
  }

  lemma GroundedAccounting(cs: seq<Chunk>, n: nat)
    requires n <= |cs|
    ensures InFlightBytes(Grounded(cs[..n]) + cs[n..]) == InFlightBytes(cs) - InFlightBytes(cs[..n])
  {
    assert cs == cs[..n] + cs[n..];
    NothingInFlight(Grounded(cs[..n]));
    InFlightConcat(Grounded(cs[..n]), cs[n..]);
    InFlightConcat(cs[..n], cs[n..]);
  }

  // --------------------------------------------------------- what runs preserve

  predicate ChunkOk(c: Chunk, lastSeqnum: nat, tsn: nat) {
    && 1 <= c.seqNum <= lastSeqnum && |c.data| <= SMSS
    && c.tsn <= tsn && (c.inFlight ==> c.nakCount < NAK_LIMIT)
  }

  predicate QueueOk(cs: seq<Chunk>, lastSeqnum: nat, tsn: nat) {
    forall c :: c in cs ==> ChunkOk(c, lastSeqnum, tsn)
  }

  /** Transmission numbers tell the chunks in flight apart. */
  predicate TsnDistinct(cs: seq<Chunk>) {
    forall c, d :: c in cs && d in cs && c.inFlight && d.inFlight && c.tsn == d.tsn ==> c.seqNum == d.seqNum
  }

  predicate SendInv(s: SendState) {
    && Ascending(s.queue)
    && QueueOk(s.queue, s.lastSeqnum, s.tsn)
    && TsnDistinct(s.queue)
    && s.inflightBytes == InFlightBytes(s.queue)
    && s.dataPackets <= MAX_BURST
    && Normal(s.ackRanges)
    && s.window.congWnd >= SMSS
  }

  /** On a queue in order the offset to the first chunk is a plain difference. */
  lemma OffsetNeverWraps(s: SendState, i: nat)
    requires SendInv(s) && i < |s.queue|
    ensures s.queue[i].seqNum >= s.queue[0].seqNum
    ensures FsnOffset(s.queue, i) == s.queue[i].seqNum - s.queue[0].seqNum
  {
  }

  // ------------------------------------------------------------------ try_send

  predicate SamePlain(a: seq<Chunk>, b: seq<Chunk>) {
    |a| == |b| && forall i :: 0 <= i < |a| ==> Plain(a[i]) == Plain(b[i])
  }

  /** The message carries one of these chunks, with the flow's options on chunk number one. */
  predicate Carries(d: UserData, config: FlowConfig, cs: seq<Chunk>) {
    && d.flowid == config.flowid && !d.abandon && !d.final
    && d.options == (if d.seqNum == 1 then FlowOptions(config.signature, config.relFlowid) else None)
    && NewChunk(d.frag, d.seqNum, d.data) in PlainAll(cs)
  }

  function PlainAll(cs: seq<Chunk>): seq<Chunk> {
    seq(|cs|, i requires 0 <= i < |cs| => Plain(cs[i]))
  }

  lemma SamePlainAll(a: seq<Chunk>, b: seq<Chunk>)
    requires SamePlain(a, b)
    ensures PlainAll(a) == PlainAll(b)
  {
  }

  lemma TransmitEffect(s: SendState, i: nat)
    requires i < |s.queue|
    ensures SamePlain(s.queue, Transmitted(s, i).queue)
    ensures Carries(UserDataOf(s, i), s.config, s.queue)
  {
    assert PlainAll(s.queue)[i] == Plain(s.queue[i]);
  }

  /** Sending marks chunks and emits copies of them; it moves, drops and alters nothing else. */
  lemma {:induction false} TrySendEffect(s: SendState, i: nat)
    requires i <= |s.queue|
    ensures var t := TrySendFrom(s, i).0;
      && SamePlain(s.queue, t.queue)
      && t == s.(queue := t.queue, inflightBytes := t.inflightBytes, dataPackets := t.dataPackets,
                 rtxAlarm := t.rtxAlarm, tsn := t.tsn)
    ensures forall k :: 0 <= k < |TrySendFrom(s, i).1| ==> Carries(TrySendFrom(s, i).1[k], s.config, s.queue)
    decreases |s.queue| - i
  {
    if i == |s.queue| || !MaySend(s) {
    } else if s.queue[i].inFlight {
      TrySendEffect(s, i + 1);
    } else {
      hide Carries;
      var t := Transmitted(s, i);
      TransmitEffect(s, i);
      TrySendEffect(t, i + 1);
      SamePlainAll(s.queue, t.queue);
      CarriesSame(TrySendFrom(t, i + 1).1, s.config, s.queue, t.queue);
    }
  }

  lemma CarriesSame(ds: seq<UserData>, config: FlowConfig, a: seq<Chunk>, b: seq<Chunk>)
    requires PlainAll(a) == PlainAll(b) && forall k :: 0 <= k < |ds| ==> Carries(ds[k], config, b)
    ensures forall k :: 0 <= k < |ds| ==> Carries(ds[k], config, a)
  {
  }

  lemma UpdateWithin(cs: seq<Chunk>, i: nat, x: Chunk)
    requires i < |cs|
    ensures forall d :: d in cs[i := x] ==> d == x || d in cs
  {
  }

  lemma LaunchedOk(cs: seq<Chunk>, i: nat, lastSeqnum: nat, tsn: nat)
    requires i < |cs| && Ascending(cs) && QueueOk(cs, lastSeqnum, tsn) && TsnDistinct(cs)
    ensures var out := cs[i := Launched(cs[i], tsn + 1)];
      Ascending(out) && QueueOk(out, lastSeqnum, tsn + 1) && TsnDistinct(out)
    ensures |cs[i].data| <= SMSS
  {
    assert cs[i] in cs && ChunkOk(cs[i], lastSeqnum, tsn);
    var out := cs[i := Launched(cs[i], tsn + 1)];
    UpdateWithin(cs, i, Launched(cs[i], tsn + 1));
    assert forall k :: 0 <= k < |out| ==> out[k].seqNum == cs[k].seqNum;
    forall d | d in out
      ensures ChunkOk(d, lastSeqnum, tsn + 1)
      ensures if d.tsn <= tsn then d in cs else d.seqNum == cs[i].seqNum
    {
      assert d in cs ==> ChunkOk(d, lastSeqnum, tsn);
    }
  }

  lemma TransmitInv(s: SendState, i: nat)
    requires SendInv(s) && i < |s.queue| && !s.queue[i].inFlight && MaySend(s)
    ensures SendInv(Transmitted(s, i)) && |s.queue[i].data| <= SMSS
  {
    hide InFlightBytes, QueueOk, TsnDistinct, Ascending, Normal;
    InFlightUpdate(s.queue, i, Launched(s.queue[i], s.tsn + 1));
    LaunchedOk(s.queue, i, s.lastSeqnum, s.tsn);
  }

  lemma {:induction false} TrySendInv(s: SendState, i: nat)
    requires SendInv(s) && i <= |s.queue|
    ensures SendInv(TrySendFrom(s, i).0)
    decreases |s.queue| - i
  {
    hide SendInv;
    if i == |s.queue| || !MaySend(s) {
    } else if s.queue[i].inFlight {
      TrySendInv(s, i + 1);
    } else {
      TransmitInv(s, i);
      TrySendInv(Transmitted(s, i), i + 1);
    }
  }

  /** Sending stops only at a limit or with everything in flight, and overshoots by less than a segment. */
  lemma {:induction false} TrySendLimits(s: SendState, i: nat)
    requires SendInv(s) && i <= |s.queue|
    requires forall k :: 0 <= k < i ==> s.queue[k].inFlight
    ensures var t := TrySendFrom(s, i).0;
      && (!MaySend(t) || forall k :: 0 <= k < |t.queue| ==> t.queue[k].inFlight)
      && (t.inflightBytes <= s.inflightBytes ||
            (t.inflightBytes < s.recvWnd + 1460 && t.inflightBytes < s.window.congWnd + 1460))
      && s.inflightBytes <= t.inflightBytes
      && t.dataPackets == s.dataPackets + |TrySendFrom(s, i).1|
    decreases |s.queue| - i
  {
    if i == |s.queue| || !MaySend(s) {
    } else if s.queue[i].inFlight {
      TrySendLimits(s, i + 1);
    } else {
      TransmitInv(s, i);
      TrySendLimits(Transmitted(s, i), i + 1);
    }
  }

  /** With nothing in flight, an open window and no packet since the last ack, a chunk may be sent. */
  lemma Idle(s: SendState)
    requires SendInv(s) && forall k :: 0 <= k < |s.queue| ==> !s.queue[k].inFlight
    requires s.dataPackets == 0 && s.recvWnd > 0
    ensures MaySend(s)
  {
    NothingInFlight(s.queue);
  }

  // --------------------------------------------------- every step keeps SendInv

  lemma FragmentsOk(data: Bytes, last: nat, tsn: nat)
    ensures var cs := Fragmented(data, last);
      && Numbered(cs, last) && QueueOk(cs, last + |cs|, tsn) && InFlightBytes(cs) == 0
      && forall c :: c in cs ==> !c.inFlight
  {
    hide Fragmented;
    var cs := Fragmented(data, last);
    FragmentShape(data, last);
    assert forall i :: 0 <= i < |cs| ==> !cs[i].inFlight && cs[i].tsn == 0;
    NothingInFlight(cs);
  }

  lemma EnqueuedInv(s: SendState, data: Bytes)
    requires SendInv(s)
    ensures SendInv(Enqueued(s, data))
  {
    hide Fragmented, InFlightBytes, Ascending, Numbered;
    var cs := Fragmented(data, s.lastSeqnum);
    FragmentsOk(data, s.lastSeqnum, s.tsn);
    InFlightConcat(s.queue, cs);
    EnqueuedAscending(s.queue, cs, s.lastSeqnum);
    assert forall c :: c in s.queue + cs <==> c in s.queue || c in cs;
  }

  lemma EnqueuedAscending(a: seq<Chunk>, b: seq<Chunk>, last: nat)
    requires Ascending(a) && Numbered(b, last) && forall c :: c in a ==> c.seqNum <= last
    ensures Ascending(a + b)
  {
  }

  lemma {:induction false} KeptWithin(cs: seq<Chunk>, acked: seq<Range>)
    ensures forall c :: c in Kept(cs, acked) <==> c in cs && !Covers(acked, c.seqNum)
    ensures forall c :: c in Removed(cs, acked) <==> c in cs && Covers(acked, c.seqNum)
  {
    hide Covers;
    if cs != [] {
      var n := |cs| - 1;
      assert cs == cs[..n] + [cs[n]];
      KeptWithin(cs[..n], acked);
    }
  }

  lemma {:induction false} KeptAscending(cs: seq<Chunk>, acked: seq<Range>)
    requires Ascending(cs)
    ensures Ascending(Kept(cs, acked))
  {
    hide Covers;
    if cs != [] {
      var n := |cs| - 1;
      KeptAscending(cs[..n], acked);
      KeptWithin(cs[..n], acked);
      assert forall c :: c in cs[..n] ==> c.seqNum < cs[n].seqNum;
      AscendingSnoc(Kept(cs[..n], acked), cs[n]);
    }
  }

  lemma AscendingSnoc(cs: seq<Chunk>, c: Chunk)
    requires Ascending(cs) && forall d :: d in cs ==> d.seqNum < c.seqNum
    ensures Ascending(cs + [c])
  {
  }

  lemma AckedInv(s: SendState, cumAck: nat, ranges: seq<Range>)
    requires SendInv(s)
    ensures SendInv(Acked(s, cumAck, ranges))
  {
    hide Covers, Kept, Removed, InFlightBytes;
    var acked := AckedRanges(s, cumAck, ranges);
    AddedMeaning(s.ackRanges, Range(0, cumAck + 1));
    AddedAllMeaning(Added(s.ackRanges, Range(0, cumAck + 1)), ranges);
    SplitByAck(s.queue, acked);
    KeptWithin(s.queue, acked);
    KeptAscending(s.queue, acked);
  }

  lemma AckedCovers(s: SendState, cumAck: nat, ranges: seq<Range>, n: nat)
    requires Normal(s.ackRanges)
    ensures Covers(AckedRanges(s, cumAck, ranges), n) <==> Covers(s.ackRanges, n) || n <= cumAck || Covers(ranges, n)
  {
    hide Normal, Covers, Added, AddedAll;
    var first := Added(s.ackRanges, Range(0, cumAck + 1));
    AddedMeaning(s.ackRanges, Range(0, cumAck + 1));
    AddedAllMeaning(first, ranges);
  }

  lemma NakAllWithin(cs: seq<Chunk>, maxTsn: nat)
    ensures forall d :: d in NakAll(cs, maxTsn) ==> exists c :: c in cs && d == Nak(c, maxTsn)
  {
    forall d | d in NakAll(cs, maxTsn)
      ensures exists c :: c in cs && d == Nak(c, maxTsn)
    {
      var i :| 0 <= i < |cs| && NakAll(cs, maxTsn)[i] == d;
      assert cs[i] in cs;
    }
  }

  lemma NakAllOk(cs: seq<Chunk>, maxTsn: nat, lastSeqnum: nat, tsn: nat)
    requires QueueOk(cs, lastSeqnum, tsn) && TsnDistinct(cs)
    ensures QueueOk(NakAll(cs, maxTsn), lastSeqnum, tsn) && TsnDistinct(NakAll(cs, maxTsn))
  {
    hide NakAll;
    NakAllWithin(cs, maxTsn);
  }

  lemma RespondedInv(pre: SendState, s: SendState, bufAvail: nat, removed: seq<Chunk>)
    requires SendInv(s)
    ensures SendInv(Responded(pre, s, bufAvail, removed))
  {
    hide InFlightBytes, MaxTsn, LostByNaks, Updated;
    var maxTsn := MaxTsn(removed);
    NakAccounting(s.queue, maxTsn);
    NakAllOk(s.queue, maxTsn, s.lastSeqnum, s.tsn);
    AtLeastOneSegment(s.config.tuning, s.window, LostByNaks(s.queue, maxTsn) != [], true,
                      AnyNak(s.queue, maxTsn), InFlightBytes(removed), Outstanding(pre));
  }

  lemma GroundedOk(cs: seq<Chunk>, n: nat, lastSeqnum: nat, tsn: nat)
    requires n <= |cs| && QueueOk(cs, lastSeqnum, tsn) && TsnDistinct(cs)
    ensures QueueOk(Grounded(cs[..n]) + cs[n..], lastSeqnum, tsn)
    ensures TsnDistinct(Grounded(cs[..n]) + cs[n..])
  {
    var out := Grounded(cs[..n]) + cs[n..];
    forall d | d in out
      ensures ChunkOk(d, lastSeqnum, tsn) && (d.inFlight ==> d in cs)
    {
      var i :| 0 <= i < |out| && out[i] == d;
      assert cs[i] in cs;
    }
  }

  lemma LoseFirstInv(s: SendState, n: nat)
    requires SendInv(s) && n <= |s.queue|
    ensures SendInv(LoseFirst(s, n))
  {
    GroundedAccounting(s.queue, n);
    GroundedOk(s.queue, n, s.lastSeqnum, s.tsn);
  }

  lemma SendKeepsInv(s: SendState, data: Bytes)
    requires SendInv(s)
    ensures SendInv(SendStep(s, data).0)
  {
    hide SendInv;
    if !s.closed {
      EnqueuedInv(s, data);
      TrySendInv(Enqueued(s, data), 0);
    }
  }

  lemma AckKeepsInv(s: SendState, bufAvail: nat, cumAck: nat, ranges: seq<Range>)
    requires SendInv(s)
    ensures SendInv(RangeAckStep(s, bufAvail, cumAck, ranges).0)
  {
    hide SendInv, Acked, Responded;
    var removed := Removed(s.queue, AckedRanges(s, cumAck, ranges));
    var acked := Acked(s, cumAck, ranges);
    AckedInv(s, cumAck, ranges);
    if AckIsValid(s, bufAvail, removed) {
      RespondedInv(s, acked, bufAvail, removed);
      TrySendInv(Responded(s, acked, bufAvail, removed), 0);
    }
  }

  lemma ResetInv(s: SendState, anyLoss: bool)
    requires SendInv(s)
    ensures SendInv(s.(window := TimedOut(s.window, anyLoss), dataPackets := 0))
  {
  }

  lemma ClosedInv(s: SendState)
    requires SendInv(s)
    ensures SendInv(Closed(s))
  {
  }

  lemma AlarmKeepsInv(s: SendState)
    requires SendInv(s)
    ensures SendInv(AlarmStep(s).0)
  {
    hide SendInv, LoseFirst, ExhaustedIndex, InFlightCount, TrySendFrom;
    var n := ExhaustedIndex(s.queue);
    ExhaustedWithin(s.queue);
    LoseFirstInv(s, n);
    LoseFirstInv(s, |s.queue|);
    ClosedInv(LoseFirst(s, n));
    if n == |s.queue| {
      var anyLoss := InFlightCount(s.queue) > 0;
      LoseKeepsWindow(s);
      ResetInv(LoseFirst(s, |s.queue|), anyLoss);
      TrySendInv(LoseFirst(s, |s.queue|).(window := TimedOut(s.window, anyLoss), dataPackets := 0), 0);
    }
  }

  // ------------------------------------------------------- what each step sends

  /** Nothing is left to send for now: a window is full, the burst is over, or every queued chunk is in flight. */
  predicate Settled(s: SendState) {
    || s.inflightBytes >= s.recvWnd || s.inflightBytes >= s.window.congWnd || s.dataPackets >= 6
    || forall k :: 0 <= k < |s.queue| ==> s.queue[k].inFlight
  }

  /** The bytes in flight stay as they were before sending, or end less than a segment above both windows. */
  predicate OvershootBounded(before: int, s: SendState) {
    || s.inflightBytes <= before
    || (s.inflightBytes < s.recvWnd + 1460 && s.inflightBytes < s.window.congWnd + 1460)
  }

  lemma TrySendSettles(s: SendState)
    requires SendInv(s)
    ensures Settled(TrySendFrom(s, 0).0) && OvershootBounded(s.inflightBytes, TrySendFrom(s, 0).0)
  {
    hide SendInv;
    TrySendLimits(s, 0);
    TrySendEffect(s, 0);
  }

  /** After a message, a timeout or an ack with news, the flow has sent all that the limits allow. */
  lemma StepsSettle(s: SendState, data: Bytes, bufAvail: nat, cumAck: nat, ranges: seq<Range>)
    requires SendInv(s)
    ensures !s.closed ==>
      Settled(SendStep(s, data).0) && OvershootBounded(s.inflightBytes, SendStep(s, data).0)
    ensures ExhaustedIndex(s.queue) == |s.queue| ==>
      Settled(AlarmStep(s).0) && OvershootBounded(0, AlarmStep(s).0)
    ensures AckIsValid(s, bufAvail, Removed(s.queue, AckedRanges(s, cumAck, ranges))) ==>
      var t := RangeAckStep(s, bufAvail, cumAck, ranges).0;
      Settled(t) && OvershootBounded(s.inflightBytes, t)
  {
    hide SendInv, Settled, TrySendFrom, Removed, Kept, AckedRanges, NakAll, LostByNaks, InFlightBytes, InFlightCount,
         ExhaustedIndex, Grounded, Updated;
    if !s.closed {
      EnqueuedInv(s, data);
      TrySendSettles(Enqueued(s, data));
    }
    if ExhaustedIndex(s.queue) == |s.queue| {
      ExhaustedWithin(s.queue);
      var anyLoss := InFlightCount(s.queue) > 0;
      LoseFirstInv(s, |s.queue|);
      LoseKeepsWindow(s);
      ResetInv(LoseFirst(s, |s.queue|), anyLoss);
      BytesAccounted(s);
      assert s.queue[..|s.queue|] == s.queue;
      TrySendSettles(LoseFirst(s, |s.queue|).(window := TimedOut(s.window, anyLoss), dataPackets := 0));
    }
    var removed := Removed(s.queue, AckedRanges(s, cumAck, ranges));
    if AckIsValid(s, bufAvail, removed) {
      AckedInv(s, cumAck, ranges);
      RespondedInv(s, Acked(s, cumAck, ranges), bufAvail, removed);
      TrySendSettles(Responded(s, Acked(s, cumAck, ranges), bufAvail, removed));
    }
  }

  /** What a step leaves of the queue, and that what it sends are chunks of that queue. */
  predicate StepShape(s: SendState, t: SendState, sent: seq<UserData>, queue: seq<Chunk>) {
    && t.config == s.config
    && PlainAll(t.queue) == queue
    && forall k :: 0 <= k < |sent| ==> Carries(sent[k], s.config, t.queue)
  }

  lemma TrySendShape(s: SendState)
    ensures var (t, sent) := TrySendFrom(s, 0);
      && StepShape(s, t, sent, PlainAll(s.queue))
      && t.lastSeqnum == s.lastSeqnum && t.ackRanges == s.ackRanges
  {
    hide PlainAll;
    TrySendEffect(s, 0);
    SamePlainAll(s.queue, TrySendFrom(s, 0).0.queue);
    CarriesSame(TrySendFrom(s, 0).1, s.config, TrySendFrom(s, 0).0.queue, s.queue);
  }

  lemma SendShape(s: SendState, data: Bytes)
    ensures var (t, sent) := SendStep(s, data);
      var cs := if s.closed then [] else Fragmented(data, s.lastSeqnum);
      && StepShape(s, t, sent, PlainAll(s.queue) + cs)
      && t.lastSeqnum == s.lastSeqnum + |cs| && t.ackRanges == s.ackRanges
  {
    if s.closed {
      assert PlainAll(s.queue) + [] == PlainAll(s.queue);
    } else {
      hide Fragmented, TrySendFrom;
      var cs := Fragmented(data, s.lastSeqnum);
      FragmentShape(data, s.lastSeqnum);
      TrySendShape(Enqueued(s, data));
      assert PlainAll(s.queue + cs) == PlainAll(s.queue) + cs;
    }
  }

  lemma {:induction false} PlainKept(cs: seq<Chunk>, acked: seq<Range>)
    ensures PlainAll(Kept(cs, acked)) == Kept(PlainAll(cs), acked)
  {
    if cs != [] {
      hide Covers;
      var n := |cs| - 1;
      PlainKept(cs[..n], acked);
      assert PlainAll(cs)[..n] == PlainAll(cs[..n]);
      assert PlainAll(Kept(cs[..n], acked) + [cs[n]]) == PlainAll(Kept(cs[..n], acked)) + [Plain(cs[n])];
    }
  }

  lemma AckShape(s: SendState, bufAvail: nat, cumAck: nat, ranges: seq<Range>)
    ensures var (t, sent) := RangeAckStep(s, bufAvail, cumAck, ranges);
      && StepShape(s, t, sent, Kept(PlainAll(s.queue), AckedRanges(s, cumAck, ranges)))
      && t.lastSeqnum == s.lastSeqnum && t.ackRanges == AckedRanges(s, cumAck, ranges)
  {
    hide Kept, Removed, TrySendFrom, AckedRanges, MaxTsn, LostByNaks, InFlightBytes, Updated;
    var acked := AckedRanges(s, cumAck, ranges);
    var removed := Removed(s.queue, acked);
    PlainKept(s.queue, acked);
    if AckIsValid(s, bufAvail, removed) {
      var t := Responded(s, Acked(s, cumAck, ranges), bufAvail, removed);
      TrySendShape(t);
      SamePlainAll(Kept(s.queue, acked), t.queue);
    }
  }

  lemma AlarmShape(s: SendState)
    ensures var (t, sent, _) := AlarmStep(s);
      && StepShape(s, t, sent, PlainAll(s.queue))
      && t.lastSeqnum == s.lastSeqnum && t.ackRanges == s.ackRanges
  {
    hide TrySendFrom, ExhaustedIndex, InFlightCount, InFlightBytes;
    var n := ExhaustedIndex(s.queue);
    ExhaustedWithin(s.queue);
    SamePlainAll(s.queue, LoseFirst(s, n).queue);
    SamePlainAll(s.queue, LoseFirst(s, |s.queue|).queue);
    if n == |s.queue| {
      TrySendShape(LoseFirst(s, n).(window := TimedOut(s.window, InFlightCount(s.queue) > 0), dataPackets := 0));
    }
  }

  // ------------------------------------------------- negative acks over whole runs

  /** How many acks of the log removed a chunk with a larger transmission number. */
  function Overtakes(log: seq<nat>, tsn: nat): nat {
    if log == [] then 0
    else Overtakes(log[..|log| - 1], tsn) + if log[|log| - 1] > tsn then 1 else 0
  }

  predicate LogBelow(log: seq<nat>, tsn: nat) {
    forall i :: 0 <= i < |log| ==> log[i] <= tsn
  }

  /** The counter of a chunk in flight is the number of acks that overtook it since it was last sent. */
  predicate NakCounted(cs: seq<Chunk>, log: seq<nat>) {
    forall c :: c in cs && c.inFlight ==> c.nakCount == Overtakes(log, c.tsn)
  }

  lemma {:induction false} NotOvertaken(log: seq<nat>, tsn: nat)
    requires LogBelow(log, tsn)
    ensures Overtakes(log, tsn) == 0
  {
    if log != [] {
      NotOvertaken(log[..|log| - 1], tsn);
    }
  }

  lemma OvertakesSnoc(log: seq<nat>, m: nat, tsn: nat)
    ensures Overtakes(log + [m], tsn) == Overtakes(log, tsn) + if m > tsn then 1 else 0
  {
    assert (log + [m])[..|log|] == log;
  }

  lemma {:induction false} TrySendNaks(s: SendState, i: nat, log: seq<nat>)
    requires i <= |s.queue| && NakCounted(s.queue, log) && LogBelow(log, s.tsn)
    ensures NakCounted(TrySendFrom(s, i).0.queue, log) && LogBelow(log, TrySendFrom(s, i).0.tsn)
    decreases |s.queue| - i
  {
    if i == |s.queue| || !MaySend(s) {
    } else if s.queue[i].inFlight {
      TrySendNaks(s, i + 1, log);
    } else {
      NotOvertaken(log, s.tsn + 1);
      UpdateWithin(s.queue, i, Launched(s.queue[i], s.tsn + 1));
      TrySendNaks(Transmitted(s, i), i + 1, log);
    }
  }

  lemma {:induction false} MaxTsnWithin(cs: seq<Chunk>, tsn: nat)
    requires forall c :: c in cs ==> c.tsn <= tsn
    ensures MaxTsn(cs) <= tsn
  {
    if cs != [] {
      assert cs == cs[..|cs| - 1] + [cs[|cs| - 1]];
      MaxTsnWithin(cs[..|cs| - 1], tsn);
    }
  }

  lemma NakAllCounted(cs: seq<Chunk>, log: seq<nat>, maxTsn: nat)
    requires NakCounted(cs, log)
    ensures NakCounted(NakAll(cs, maxTsn), log + [maxTsn])
  {
    hide NakAll, Overtakes;
    NakAllWithin(cs, maxTsn);
    forall d | d in NakAll(cs, maxTsn) && d.inFlight
      ensures d.nakCount == Overtakes(log + [maxTsn], d.tsn)
    {
      OvertakesSnoc(log, maxTsn, d.tsn);
    }
  }

  datatype SendEvent =
    | Submitted(data: Bytes)
    | AckArrived(bufAvail: nat, cumAck: nat, ranges: seq<Range>)
    | AlarmFired
    | CloseCalled

  /** A send flow together with the log of the largest transmission number each ack removed. */
  datatype SendHistory = SendHistory(state: SendState, log: seq<nat>)

  function Happened(h: SendHistory, e: SendEvent): SendHistory {
    match e
    case Submitted(data) => h.(state := SendStep(h.state, data).0)
    case AckArrived(bufAvail, cumAck, ranges) =>
      SendHistory(RangeAckStep(h.state, bufAvail, cumAck, ranges).0,
                  h.log + [MaxTsn(Removed(h.state.queue, AckedRanges(h.state, cumAck, ranges)))])
    case AlarmFired => h.(state := AlarmStep(h.state).0)
    case CloseCalled => h.(state := Closed(h.state))
  }

  function AllHappened(config: FlowConfig, events: seq<SendEvent>): SendHistory {
    if events == [] then SendHistory(OpenedSend(config), [])
    else Happened(AllHappened(config, events[..|events| - 1]), events[|events| - 1])
  }

  predicate HistoryInv(h: SendHistory) {
    SendInv(h.state) && NakCounted(h.state.queue, h.log) && LogBelow(h.log, h.state.tsn)
  }

  lemma RemovedEmpty(cs: seq<Chunk>, acked: seq<Range>)
    requires Removed(cs, acked) == []
    ensures MaxTsn(Removed(cs, acked)) == 0
  {
  }

  lemma RemovedTsn(s: SendState, acked: seq<Range>)
    requires SendInv(s)
    ensures MaxTsn(Removed(s.queue, acked)) <= s.tsn
  {
    hide Removed, Covers, MaxTsn;
    KeptWithin(s.queue, acked);
    assert forall c :: c in Removed(s.queue, acked) ==> ChunkOk(c, s.lastSeqnum, s.tsn);
    MaxTsnWithin(Removed(s.queue, acked), s.tsn);
  }

  lemma KeptCounted(cs: seq<Chunk>, acked: seq<Range>, log: seq<nat>)
    requires NakCounted(cs, log)
    ensures NakCounted(Kept(cs, acked), log)
  {
    hide Covers, Overtakes, Kept;
    KeptWithin(cs, acked);
  }

  lemma IdleAckCounted(cs: seq<Chunk>, log: seq<nat>)
    requires NakCounted(cs, log)
    ensures NakCounted(cs, log + [0])
  {
    hide Overtakes;
    forall c | c in cs && c.inFlight
      ensures c.nakCount == Overtakes(log + [0], c.tsn)
    {
      OvertakesSnoc(log, 0, c.tsn);
    }
  }

  lemma AckHistory(h: SendHistory, bufAvail: nat, cumAck: nat, ranges: seq<Range>)
    requires HistoryInv(h)
    ensures HistoryInv(Happened(h, AckArrived(bufAvail, cumAck, ranges)))
  {
    hide Kept, Removed, SendInv, NakCounted, NakAll, MaxTsn, TrySendFrom, AckedRanges;
    var s := h.state;
    var acked := AckedRanges(s, cumAck, ranges);
    var removed := Removed(s.queue, acked);
    var m := MaxTsn(removed);
    AckKeepsInv(s, bufAvail, cumAck, ranges);
    RemovedTsn(s, acked);
    KeptCounted(s.queue, acked, h.log);
    var t := Acked(s, cumAck, ranges);
    if AckIsValid(s, bufAvail, removed) {
      NakAllCounted(Kept(s.queue, acked), h.log, m);
      TrySendNaks(Responded(s, t, bufAvail, removed), 0, h.log + [m]);
    } else {
      RemovedEmpty(s.queue, acked);
      IdleAckCounted(t.queue, h.log);
    }
  }

  lemma EnqueuedCounted(s: SendState, data: Bytes, log: seq<nat>)
    requires NakCounted(s.queue, log)
    ensures NakCounted(Enqueued(s, data).queue, log)
  {
    hide Fragmented, Overtakes;
    FragmentsOk(data, s.lastSeqnum, s.tsn);
  }

  lemma SubmitHistory(h: SendHistory, data: Bytes)
    requires HistoryInv(h)
    ensures HistoryInv(Happened(h, Submitted(data)))
  {
    hide SendInv, NakCounted, Fragmented, TrySendFrom;
    SendKeepsInv(h.state, data);
    if !h.state.closed {
      EnqueuedCounted(h.state, data, h.log);
      TrySendNaks(Enqueued(h.state, data), 0, h.log);
    }
  }

  lemma GroundedCounted(cs: seq<Chunk>, n: nat, log: seq<nat>)
    requires n <= |cs| && NakCounted(cs, log)
    ensures NakCounted(Grounded(cs[..n]) + cs[n..], log)
  {
    hide Overtakes;
    var out := Grounded(cs[..n]) + cs[n..];
    forall d | d in out && d.inFlight
      ensures d in cs
    {
      var i :| 0 <= i < |out| && out[i] == d;
      assert cs[i] in cs;
    }
  }

  lemma AlarmHistory(h: SendHistory)
    requires HistoryInv(h)
    ensures HistoryInv(Happened(h, AlarmFired))
  {
    hide SendInv, NakCounted, TrySendFrom, Grounded, ExhaustedIndex, InFlightCount, InFlightBytes;
    var s := h.state;
    AlarmKeepsInv(s);
    ExhaustedWithin(s.queue);
    GroundedCounted(s.queue, ExhaustedIndex(s.queue), h.log);
    GroundedCounted(s.queue, |s.queue|, h.log);
    if ExhaustedIndex(s.queue) == |s.queue| {
      TrySendNaks(LoseFirst(s, |s.queue|).(window := TimedOut(s.window, InFlightCount(s.queue) > 0),
                                           dataPackets := 0), 0, h.log);
    }
  }

  lemma HappenedKeeps(h: SendHistory, e: SendEvent)
    requires HistoryInv(h)
    ensures HistoryInv(Happened(h, e))
  {
    match e
    case Submitted(data) => SubmitHistory(h, data);
    case AckArrived(bufAvail, cumAck, ranges) => AckHistory(h, bufAvail, cumAck, ranges);
    case AlarmFired => AlarmHistory(h);
    case CloseCalled => ClosedInv(h.state);
  }

  /** Over every run, whatever the acks say, the sender's accounting and its negative-ack counters hold. */
  lemma {:induction false} SenderRuns(config: FlowConfig, events: seq<SendEvent>)
    ensures HistoryInv(AllHappened(config, events))
  {
    if events != [] {
      SenderRuns(config, events[..|events| - 1]);
      HappenedKeeps(AllHappened(config, events[..|events| - 1]), events[|events| - 1]);
    }
  }

  /** A chunk given up by negative acks was overtaken by three acks since its latest transmission. */
  lemma NakLossMeans(config: FlowConfig, events: seq<SendEvent>, bufAvail: nat, cumAck: nat, ranges: seq<Range>,
                     c: Chunk)
    requires var h := AllHappened(config, events);
      var acked := AckedRanges(h.state, cumAck, ranges);
      c in Kept(h.state.queue, acked) && LostByNak(c, MaxTsn(Removed(h.state.queue, acked)))
    ensures var h := AllHappened(config, events);
      Overtakes(Happened(h, AckArrived(bufAvail, cumAck, ranges)).log, c.tsn) == 3
  {
    var h := AllHappened(config, events);
    var acked := AckedRanges(h.state, cumAck, ranges);
    SenderRuns(config, events);
    KeptWithin(h.state.queue, acked);
    assert ChunkOk(c, h.state.lastSeqnum, h.state.tsn);
    OvertakesSnoc(h.log, MaxTsn(Removed(h.state.queue, acked)), c.tsn);
  }

  // ------------------------------------------------------------- the class

  lemma {:induction false} RemovedBytesBound(cs: seq<Chunk>, k: nat, acked: seq<Range>)
    requires k < |cs|
    ensures InFlightBytes(Removed(cs[..k], acked)) + (if Covers(acked, cs[k].seqNum) then Flying(cs[k]) else 0)
         == InFlightBytes(Removed(cs[..k + 1], acked))
    ensures InFlightBytes(Removed(cs[..k + 1], acked)) <= InFlightBytes(cs)
  {
    hide Covers;
    var c := cs[k];
    assert cs[..k + 1] == cs[..k] + [c] && cs == cs[..k + 1] + cs[k + 1..];
    assert cs[..k + 1][..k] == cs[..k];
    InFlightSnoc(Removed(cs[..k], acked), c);
    SplitByAck(cs[..k + 1], acked);
    InFlightConcat(cs[..k + 1], cs[k + 1..]);
  }

  lemma FilterSnoc(cs: seq<Chunk>, k: nat, acked: seq<Range>)
    requires k < |cs|
    ensures Kept(cs[..k + 1], acked) ==
      if Covers(acked, cs[k].seqNum) then Kept(cs[..k], acked) else Kept(cs[..k], acked) + [cs[k]]
    ensures Removed(cs[..k + 1], acked) ==
      if Covers(acked, cs[k].seqNum) then Removed(cs[..k], acked) + [cs[k]] else Removed(cs[..k], acked)
  {
    hide Covers;
    assert cs[..k + 1][..k] == cs[..k];
  }

  lemma CutNext(queue: seq<Chunk>, data: Bytes, i: nat, last: nat)
    requires i < |data|
    ensures var length := if i + SMSS >= |data| then |data| - i else SMSS;
      var frag := if i + SMSS >= |data| then FC_END else if i == 0 then FC_BEGIN else FC_MIDDLE;
      var c := NewChunk(frag, last + 1, data[i..i + length]);
      && |Cut(data, i, last)| == 1 + |Cut(data, i + length, last + 1)|
      && queue + Cut(data, i, last) == queue + [c] + Cut(data, i + length, last + 1)
  {
    if i + SMSS >= |data| {
      assert data[i..|data|] == data[i..];
      assert Cut(data, |data|, last + 1) == [];
    }
  }

  lemma CutDone(queue: seq<Chunk>, data: Bytes, last: nat)
    ensures Cut(data, |data|, last) == [] && queue + Cut(data, |data|, last) == queue
  {
  }

  lemma EmptyQueue(acked: seq<Range>, maxTsn: nat)
    ensures Kept([], acked) == [] && Removed([], acked) == [] && MaxTsn([]) == 0 && InFlightBytes([]) == 0
    ensures NakAll([], maxTsn) == [] && LostByNaks([], maxTsn) == [] && SumData([]) == 0
    ensures Grounded([]) == [] && InFlightCount([]) == 0
  {
  }

  lemma WholeSequence<T>(s: seq<T>)
    ensures s[..0] == [] && s[..|s|] == s && s[|s|..] == [] && s + [] == s && [] + s[0..] == s
  {
  }

  lemma Unhook<T>(a: seq<T>, s: seq<T>, k: nat)
    requires k < |s|
    ensures (a + s[k..])[..|a|] + (a + s[k..])[|a| + 1..] == a + s[k + 1..]
    ensures a + s[k..] == a + [s[k]] + s[k + 1..]
  {
    assert (a + s[k..])[..|a|] == a;
    assert (a + s[k..])[|a| + 1..] == s[k + 1..];
  }

  lemma ChunkAcked(cs: seq<Chunk>, k: nat, acked: seq<Range>)
    requires k < |cs| && Covers(acked, cs[k].seqNum)
    ensures var removed, after := Removed(cs[..k], acked), Removed(cs[..k + 1], acked);
      && Kept(cs[..k + 1], acked) == Kept(cs[..k], acked)
      && after == removed + [cs[k]]
      && MaxTsn(after) == Max(MaxTsn(removed), cs[k].tsn)
      && InFlightBytes(after) == InFlightBytes(removed) + Flying(cs[k])
      && InFlightBytes(after) <= InFlightBytes(cs)
  {
    hide Covers, Kept;
    var removed := Removed(cs[..k], acked);
    FilterSnoc(cs, k, acked);
    RemovedBytesBound(cs, k, acked);
  }

  lemma ChunkKept(cs: seq<Chunk>, k: nat, acked: seq<Range>)
    requires k < |cs| && !Covers(acked, cs[k].seqNum)
    ensures Kept(cs[..k + 1], acked) == Kept(cs[..k], acked) + [cs[k]]
    ensures Removed(cs[..k + 1], acked) == Removed(cs[..k], acked)
  {
    hide Covers;
    FilterSnoc(cs, k, acked);
  }

  lemma NakStep(cs: seq<Chunk>, k: nat, maxTsn: nat)
    requires k < |cs|
    ensures var mixed := NakAll(cs[..k], maxTsn) + cs[k..];
      && |NakAll(cs[..k + 1], maxTsn)| == k + 1
      && mixed[k := Nak(cs[k], maxTsn)] == NakAll(cs[..k + 1], maxTsn) + cs[k + 1..]
    ensures !Overtaken(cs[k], maxTsn) ==>
      NakAll(cs[..k + 1], maxTsn) + cs[k + 1..] == NakAll(cs[..k], maxTsn) + cs[k..]
    ensures var before, after := LostByNaks(cs[..k], maxTsn), LostByNaks(cs[..k + 1], maxTsn);
      && after == (if LostByNak(cs[k], maxTsn) then before + [cs[k]] else before)
      && SumData(after) == SumData(before) + (if LostByNak(cs[k], maxTsn) then |cs[k].data| else 0)
      && SumData(after) <= InFlightBytes(cs)
  {
    NakMixed(cs, k, maxTsn);
    NakLosses(cs, k, maxTsn);
  }

  lemma NakMixed(cs: seq<Chunk>, k: nat, maxTsn: nat)
    requires k < |cs|
    ensures var mixed := NakAll(cs[..k], maxTsn) + cs[k..];
      && |NakAll(cs[..k + 1], maxTsn)| == k + 1
      && mixed[k := Nak(cs[k], maxTsn)] == NakAll(cs[..k + 1], maxTsn) + cs[k + 1..]
    ensures !Overtaken(cs[k], maxTsn) ==>
      NakAll(cs[..k + 1], maxTsn) + cs[k + 1..] == NakAll(cs[..k], maxTsn) + cs[k..]
  {
  }

  lemma NakLosses(cs: seq<Chunk>, k: nat, maxTsn: nat)
    requires k < |cs|
    ensures var before, after := LostByNaks(cs[..k], maxTsn), LostByNaks(cs[..k + 1], maxTsn);
      && after == (if LostByNak(cs[k], maxTsn) then before + [cs[k]] else before)
      && SumData(after) == SumData(before) + (if LostByNak(cs[k], maxTsn) then |cs[k].data| else 0)
      && SumData(after) <= InFlightBytes(cs)
  {
    var before := LostByNaks(cs[..k], maxTsn);
    assert cs[..k + 1][..k] == cs[..k] && cs == cs[..k + 1] + cs[k + 1..];
    SumDataConcat(before, [cs[k]]);
    assert SumData([cs[k]]) == |cs[k].data| + SumData([]);
    NakAccounting(cs[..k + 1], maxTsn);
    InFlightConcat(cs[..k + 1], cs[k + 1..]);
  }

  class SendFlow {
    const config: FlowConfig
    const timers: SessionTimers
    const ackRanges: RangeQueue
    var lastSeqnum: nat
    var sendQueue: seq<Chunk>
    var inflightBytes: nat
    var ackedBytesAccumulator: nat
    var recvWnd: nat
    var congWnd: nat
    var ssthresh: nat
    var dataPacketsCount: nat
    var bufprobTicker: bool
    var rtxAlarm: bool
    var currentTsn: nat
    var closed: bool
    var cLoss: nat

    ghost function Model(): SendState
      reads this, ackRanges
    {
      SendState(config, lastSeqnum, sendQueue, inflightBytes, recvWnd,
                Window(congWnd, ssthresh, ackedBytesAccumulator), ackRanges.ranges,
                dataPacketsCount, bufprobTicker, rtxAlarm, currentTsn, closed, cLoss)
    }

    ghost predicate Valid()
      reads this, ackRanges
    {
      SendInv(Model())
    }

    constructor (config: FlowConfig, timers: SessionTimers)
      ensures Valid() && Model() == OpenedSend(config) && this.config == config && this.timers == timers
      ensures fresh(ackRanges)
    {
      this.config := config;
      this.timers := timers;
      ackRanges := new RangeQueue();
      lastSeqnum, sendQueue, inflightBytes, ackedBytesAccumulator := 0, [], 0, 0;
      recvWnd, congWnd, ssthresh := INIT_RECV_WND, INIT_CONG_WND, MAX_UINT;
      dataPacketsCount, bufprobTicker, rtxAlarm, currentTsn, closed, cLoss := 0, false, false, 0, false, 0;
    }

    method Close()
      requires Valid()
      modifies this`closed, this`rtxAlarm, this`bufprobTicker
      ensures Valid() && Model() == Closed(old(Model()))
    {
      hide SendInv;
      ClosedInv(Model());
      closed := true;
      rtxAlarm := false;
      bufprobTicker := false;
    }

    method FirstOptions() returns (options: Option<Bytes>)
      ensures options == FlowOptions(config.signature, config.relFlowid)
    {
      var optionsBuf := new Buffer([]);
      if config.signature.Some? {
        optionsBuf.Write(config.signature.value);
      }
      if config.relFlowid != 0 {
        EncodeVlu(optionsBuf, 1 + 1);
        optionsBuf.WriteByte(OPTION_RELATED_FLOW);
        EncodeVlu(optionsBuf, config.relFlowid);
      }
      assert optionsBuf.data == OptionBytes(config.signature) + RelatedFlowOption(config.relFlowid);
      options := None;
      if |optionsBuf.data| > 0 {
        optionsBuf.WriteByte(0);
        options := Some(optionsBuf.data);
      }
    }

    method SendUserdata(i: nat) returns (d: UserData)
      requires Valid() && i < |sendQueue| && !sendQueue[i].inFlight && MaySend(Model())
      modifies this`dataPacketsCount, this`inflightBytes, this`sendQueue, this`currentTsn, this`rtxAlarm
      ensures Valid() && Model() == Transmitted(old(Model()), i) && d == UserDataOf(old(Model()), i)
      ensures |sendQueue| == |old(sendQueue)|
    {
      hide SendInv;
      ghost var model := Model();
      TransmitInv(model, i);
      OffsetNeverWraps(model, i);
      var chunk := sendQueue[i];
      dataPacketsCount := dataPacketsCount + 1;
      inflightBytes := inflightBytes + |chunk.data|;
      currentTsn := currentTsn + 1;
      sendQueue := sendQueue[i := chunk.(sendCount := chunk.sendCount + 1, nakCount := 0,
                                         inFlight := true, tsn := currentTsn)];
      var options := None;
      if chunk.seqNum == 1 {
        options := FirstOptions();
      }
      d := UserData(chunk.frag, config.flowid, chunk.seqNum, chunk.seqNum - sendQueue[0].seqNum,
                    chunk.data, options, false, false);
      rtxAlarm := true;
      assert Model() == Transmitted(model, i);
    }

    method TrySend() returns (sent: seq<UserData>)
      requires Valid()
      modifies this`dataPacketsCount, this`inflightBytes, this`sendQueue, this`currentTsn, this`rtxAlarm
      ensures Valid() && (Model(), sent) == TrySendFrom(old(Model()), 0)
    {
      hide SendInv, Transmitted, UserDataOf;
      sent := [];
      var i := 0;
      assert sent + TrySendFrom(Model(), 0).1 == TrySendFrom(Model(), 0).1;
      while i < |sendQueue| && inflightBytes < Min(recvWnd, congWnd) && dataPacketsCount < MAX_BURST
        invariant Valid() && i <= |sendQueue|
        invariant TrySendFrom(Model(), i).0 == TrySendFrom(old(Model()), 0).0
        invariant sent + TrySendFrom(Model(), i).1 == TrySendFrom(old(Model()), 0).1
        decreases |sendQueue| - i
      {
        if !sendQueue[i].inFlight {
          var d := SendUserdata(i);
          sent := sent + [d];
        }
        i := i + 1;
      }
      assert sent + [] == sent;
    }

    method NextSeqnumber() returns (n: nat)
      modifies this`lastSeqnum
      ensures n == lastSeqnum == old(lastSeqnum) + 1
    {
      lastSeqnum := lastSeqnum + 1;
      n := lastSeqnum;
    }

    /** The loop of send for a message longer than one segment. */
    method CutMessage(data: Bytes)
      modifies this`lastSeqnum, this`sendQueue
      ensures var cs := Cut(data, 0, old(lastSeqnum));
        sendQueue == old(sendQueue) + cs && lastSeqnum == old(lastSeqnum) + |cs|
    {
      hide Cut;
      ghost var all := Cut(data, 0, lastSeqnum);
      var i := 0;
      while i < |data|
        invariant i <= |data|
        invariant sendQueue + Cut(data, i, lastSeqnum) == old(sendQueue) + all
        invariant lastSeqnum + |Cut(data, i, lastSeqnum)| == old(lastSeqnum) + |all|
      {
        ghost var last := lastSeqnum;
        var n := NextSeqnumber();
        var length := SMSS;
        var frag := FC_MIDDLE;
        if i + length >= |data| {
          length := |data| - i;
          frag := FC_END;
        } else if i == 0 {
          frag := FC_BEGIN;
        }
        CutNext(sendQueue, data, i, last);
        sendQueue := sendQueue + [NewChunk(frag, n, data[i..i + length])];
        i := i + length;
      }
      CutDone(sendQueue, data, lastSeqnum);
    }

    /** The part of send that queues the chunks of a message. */
    method Enqueue(data: Bytes)
      requires Valid()
      modifies this`lastSeqnum, this`sendQueue
      ensures Valid() && Model() == Enqueued(old(Model()), data)
    {
      hide SendInv, Cut;
      EnqueuedInv(Model(), data);
      if |data| <= SMSS {
        var n := NextSeqnumber();
        sendQueue := sendQueue + [NewChunk(FC_WHOLE, n, data)];
      } else {
        CutMessage(data);
      }
    }

    /** None is the error of a closed flow. */
    method Send(data: Bytes) returns (written: Option<nat>, sent: seq<UserData>)
      requires Valid()
      modifies this
      ensures Valid() && (Model(), sent) == SendStep(old(Model()), data)
      ensures written == if old(closed) then None else Some(|data|)
    {
      hide SendInv;
      if closed {
        return None, [];
      }
      Enqueue(data);
      sent := TrySend();
      written := Some(|data|);
    }

    method ChunkLoss(i: nat)
      requires i < |sendQueue| && inflightBytes >= |sendQueue[i].data|
      modifies this`sendQueue, this`inflightBytes, this`cLoss
      ensures sendQueue == old(sendQueue)[i := old(sendQueue)[i].(inFlight := false)]
      ensures inflightBytes == old(inflightBytes) - |old(sendQueue)[i].data| && cLoss == old(cLoss) + 1
    {
      sendQueue := sendQueue[i := sendQueue[i].(inFlight := false)];
      inflightBytes := inflightBytes - |sendQueue[i].data|;
      cLoss := cLoss + 1;
    }

    /** The first loop of on_range_ack. */
    method RemoveAcked() returns (valid: bool, ackedBytes: nat, maxTsn: nat)
      requires inflightBytes == InFlightBytes(sendQueue)
      modifies this`sendQueue, this`inflightBytes
      ensures var removed := Removed(old(sendQueue), ackRanges.ranges);
        && (valid <==> removed != [])
        && ackedBytes == InFlightBytes(removed)
        && maxTsn == MaxTsn(removed)
        && inflightBytes == old(inflightBytes) - ackedBytes
      ensures sendQueue == Kept(old(sendQueue), ackRanges.ranges)
    {
      hide Covers, Kept, Removed, MaxTsn, InFlightBytes;
      ghost var queue, acked := sendQueue, ackRanges.ranges;
      ghost var k := 0;
      EmptyQueue(acked, 0);
      assert queue[..0] == [] && [] + queue[0..] == queue;
      valid, ackedBytes, maxTsn := false, 0, 0;
      var i := 0;
      while i < |sendQueue|
        invariant k <= |queue| && i == |Kept(queue[..k], acked)|
        invariant sendQueue == Kept(queue[..k], acked) + queue[k..]
        invariant valid <==> Removed(queue[..k], acked) != []
        invariant ackedBytes == InFlightBytes(Removed(queue[..k], acked))
        invariant maxTsn == MaxTsn(Removed(queue[..k], acked))
        invariant inflightBytes == InFlightBytes(queue) - ackedBytes
        decreases |queue| - k
      {
        var chunk := sendQueue[i];
        assert chunk == queue[k];
        Unhook(Kept(queue[..k], acked), queue, k);
        var found := ackRanges.Contain(chunk.seqNum);
        if found {
          ChunkAcked(queue, k, acked);
          sendQueue := sendQueue[..i] + sendQueue[i + 1..];
          if chunk.inFlight {
            inflightBytes := inflightBytes - |chunk.data|;
            ackedBytes := ackedBytes + |chunk.data|;
          }
          if chunk.tsn > maxTsn {
            maxTsn := chunk.tsn;
          }
          valid := true;
        } else {
          ChunkKept(queue, k, acked);
          i := i + 1;
        }
        k := k + 1;
      }
      assert queue[..k] == queue;
    }

    /** The body of the second loop of on_range_ack. */
    method NakChunk(i: nat, maxTsn: nat) returns (nak: bool, lost: bool)
      requires i < |sendQueue| && (LostByNak(sendQueue[i], maxTsn) ==> inflightBytes >= |sendQueue[i].data|)
      modifies this`sendQueue, this`inflightBytes, this`cLoss
      ensures nak == Overtaken(old(sendQueue)[i], maxTsn) && lost == LostByNak(old(sendQueue)[i], maxTsn)
      ensures sendQueue == old(sendQueue)[i := Nak(old(sendQueue)[i], maxTsn)]
      ensures inflightBytes == old(inflightBytes) - if lost then |old(sendQueue)[i].data| else 0
      ensures cLoss == old(cLoss) + if lost then 1 else 0
    {
      var chunk := sendQueue[i];
      nak, lost := false, false;
      if chunk.inFlight && chunk.tsn < maxTsn {
        nak := true;
        sendQueue := sendQueue[i := chunk.(nakCount := chunk.nakCount + 1)];
        if chunk.nakCount + 1 >= NAK_LIMIT {
          lost := true;
          ChunkLoss(i);
        }
      }
    }

    /** The second loop of on_range_ack. */
    method CountNaks(maxTsn: nat) returns (anyNak: bool, anyLoss: bool)
      requires inflightBytes == InFlightBytes(sendQueue)
      modifies this`sendQueue, this`inflightBytes, this`cLoss
      ensures var lost := LostByNaks(old(sendQueue), maxTsn);
        && (anyLoss <==> lost != [])
        && inflightBytes == old(inflightBytes) - SumData(lost)
        && cLoss == old(cLoss) + |lost|
      ensures anyNak <==> AnyNak(old(sendQueue), maxTsn)
      ensures sendQueue == NakAll(old(sendQueue), maxTsn)
    {
      hide InFlightBytes, LostByNaks, SumData, NakAll;
      ghost var queue := sendQueue;
      anyNak, anyLoss := false, false;
      EmptyQueue([], maxTsn);
      WholeSequence(queue);
      for i := 0 to |sendQueue|
        invariant |sendQueue| == |queue| && sendQueue == NakAll(queue[..i], maxTsn) + queue[i..]
        invariant |NakAll(queue[..i], maxTsn)| == i
        invariant anyLoss <==> LostByNaks(queue[..i], maxTsn) != []
        invariant inflightBytes == InFlightBytes(queue) - SumData(LostByNaks(queue[..i], maxTsn))
        invariant cLoss == old(cLoss) + |LostByNaks(queue[..i], maxTsn)|
        invariant anyNak <==> exists k :: 0 <= k < i && Overtaken(queue[k], maxTsn)
      {
        NakStep(queue, i, maxTsn);
        assert sendQueue[i] == queue[i];
        var nak, lost := NakChunk(i, maxTsn);
        anyNak := anyNak || nak;
        anyLoss := anyLoss || lost;
      }
      WholeSequence(queue);
      WholeSequence(NakAll(queue, maxTsn));
    }

    method UpdateCongestionWnd(anyLoss: bool, anyAck: bool, anyNak: bool, ackedBytes: nat, preAckOutstanding: nat)
      modifies this`ssthresh, this`congWnd, this`ackedBytesAccumulator
      ensures Window(congWnd, ssthresh, ackedBytesAccumulator) ==
        Updated(config.tuning, old(Window(congWnd, ssthresh, ackedBytesAccumulator)),
                anyLoss, anyAck, anyNak, ackedBytes, preAckOutstanding)
    {
      if anyLoss {
        if config.tuning.timeCritical || (preAckOutstanding > 67200 && config.tuning.fastGrow) {
          ssthresh := Max(preAckOutstanding * 7 / 8, INIT_CONG_WND);
        } else {
          ssthresh := Max(preAckOutstanding * 1 / 2, INIT_CONG_WND);
        }
        congWnd := ssthresh;
        ackedBytesAccumulator := 0;
      } else if anyAck && !anyNak && preAckOutstanding >= congWnd {
        var increase := 0;
        if config.tuning.fastGrow {
          if congWnd < ssthresh {
            increase := ackedBytes;
          } else {
            ackedBytesAccumulator := ackedBytesAccumulator + ackedBytes;
            var aithresh := Min(Max(congWnd / 16, 64), 4800);
            ackedBytesAccumulator, increase := DrainAccumulator(ackedBytesAccumulator, aithresh, 48);
          }
        } else {
          if congWnd < ssthresh && config.tuning.timeCritical {
            increase := CeilQuarter(ackedBytes);
          } else {
            var aithreshCap := if config.tuning.timeCritical then 2400 else 4800;
            ackedBytesAccumulator := ackedBytesAccumulator + ackedBytes;
            var aithresh := Min(Max(congWnd / 16, 64), aithreshCap);
            ackedBytesAccumulator, increase := DrainAccumulator(ackedBytesAccumulator, aithresh, 24);
          }
        }
        congWnd := Max(congWnd + Min(increase, SMSS), INIT_CONG_WND);
      }
    }

    method OnRangeAck(bufAvail: nat, cumAck: nat, recvRanges: seq<Range>) returns (sent: seq<UserData>)
      requires Valid()
      modifies this, ackRanges
      ensures Valid() && (Model(), sent) == RangeAckStep(old(Model()), bufAvail, cumAck, recvRanges)
    {
      hide SendInv, Acked, Responded, Removed, MaxTsn, InFlightBytes;
      ghost var pre := Model();
      BytesAccounted(pre);
      var preAckOutstanding := inflightBytes;
      var valid, ackedBytes, maxTsn := TakeAck(cumAck, recvRanges);
      ghost var removed := Removed(pre.queue, AckedRanges(pre, cumAck, recvRanges));
      if !valid && !(bufAvail > 0 && bufprobTicker) {
        return [];
      }
      Respond(bufAvail, maxTsn, ackedBytes, preAckOutstanding, pre, removed);
      sent := TrySend();
    }

    /** The rest of on_range_ack for an ack that is no mere delay ack, up to the final try_send. */
    method Respond(bufAvail: nat, maxTsn: nat, ackedBytes: nat, preAckOutstanding: nat,
                   ghost pre: SendState, ghost removed: seq<Chunk>)
      requires Valid() && preAckOutstanding == Outstanding(pre)
      requires maxTsn == MaxTsn(removed) && ackedBytes == InFlightBytes(removed)
      modifies this`sendQueue, this`inflightBytes, this`cLoss, this`bufprobTicker, this`recvWnd,
               this`ssthresh, this`congWnd, this`ackedBytesAccumulator
      ensures Valid() && Model() == Responded(pre, old(Model()), bufAvail, removed)
    {
      hide SendInv, Updated, MaxTsn, InFlightBytes, LostByNaks, NakAll, SumData;
      BytesAccounted(Model());
      RespondedInv(pre, Model(), bufAvail, removed);
      if bufAvail > 0 && bufprobTicker {
        bufprobTicker := false;
      }
      var anyNak, anyLoss := CountNaks(maxTsn);
      if bufAvail == 0 && !bufprobTicker {
        bufprobTicker := true;
      }
      recvWnd := bufAvail;
      UpdateCongestionWnd(anyLoss, true, anyNak, ackedBytes, preAckOutstanding);
    }

    /** The beginning of on_range_ack, up to the removal of what is acknowledged. */
    method TakeAck(cumAck: nat, recvRanges: seq<Range>) returns (valid: bool, ackedBytes: nat, maxTsn: nat)
      requires Valid()
      modifies this`dataPacketsCount, this`sendQueue, this`inflightBytes, ackRanges
      ensures Valid() && Model() == Acked(old(Model()), cumAck, recvRanges)
      ensures var removed := Removed(old(sendQueue), AckedRanges(old(Model()), cumAck, recvRanges));
        valid == (removed != []) && ackedBytes == InFlightBytes(removed) && maxTsn == MaxTsn(removed)
    {
      hide Removed, Kept, MaxTsn, InFlightBytes, QueueOk, TsnDistinct, Ascending, AddedAll, Added, Placed, PlacedAll,
           Normal, Covers;
      ghost var pre := Model();
      AckedInv(pre, cumAck, recvRanges);
      AddedMeaning(ackRanges.ranges, Range(0, cumAck + 1));
      dataPacketsCount := 0;
      ackRanges.AddRange(MakeRange(0, cumAck + 1));
      var received := new RangeQueue.FromArray(recvRanges);
      ackRanges.AddRangeQueue(received);
      assert ackRanges.ranges == AckedRanges(pre, cumAck, recvRanges);
      valid, ackedBytes, maxTsn := RemoveAcked();
      assert Model() == Acked(pre, cumAck, recvRanges);
    }

    ghost predicate LostUpTo(pre: SendState, i: nat)
      requires i <= |pre.queue|
      reads this
    {
      var t := LoseFirst(pre, i);
      sendQueue == t.queue && inflightBytes == t.inflightBytes && cLoss == t.losses
    }

    /** The body of that loop. */
    method LoseChunk(i: nat, ghost pre: SendState) returns (lost: bool, exhausted: bool)
      requires i < |pre.queue| && pre.inflightBytes == InFlightBytes(pre.queue) && LostUpTo(pre, i)
      modifies this`sendQueue, this`inflightBytes, this`cLoss
      ensures exhausted <==> pre.queue[i].inFlight && pre.queue[i].sendCount > MAX_RESEND_COUNT
      ensures exhausted ==> LostUpTo(pre, i) && !lost
      ensures !exhausted ==> LostUpTo(pre, i + 1) && lost == pre.queue[i].inFlight
    {
      hide LoseFirst, InFlightBytes;
      LoseNext(pre, i);
      var chunk := sendQueue[i];
      lost, exhausted := false, false;
      if chunk.inFlight {
        if chunk.sendCount > MAX_RESEND_COUNT {
          exhausted := true;
          return;
        }
        lost := true;
        ChunkLoss(i);
      }
    }

    /** The loop of on_rtx_alarm; it stops at a chunk that was sent too often. */
    method LoseAll() returns (anyLoss: bool, exhausted: bool)
      requires Valid()
      modifies this`sendQueue, this`inflightBytes, this`cLoss
      ensures var n := ExhaustedIndex(old(sendQueue));
        && n <= |old(sendQueue)|
        && (exhausted <==> n < |old(sendQueue)|)
        && (anyLoss <==> InFlightCount(old(sendQueue)[..n]) > 0)
        && Model() == LoseFirst(old(Model()), n)
      ensures Valid()
    {
      hide SendInv, InFlightBytes, InFlightCount, LoseFirst, ExhaustedIndex;
      ghost var pre := Model();
      BytesAccounted(pre);
      ExhaustedWithin(pre.queue);
      LoseFirstInv(pre, ExhaustedIndex(pre.queue));
      LoseNone(pre);
      anyLoss, exhausted := false, false;
      var i := 0;
      while i < |sendQueue| && !exhausted
        invariant i <= ExhaustedIndex(pre.queue) && LostUpTo(pre, i) && |sendQueue| == |pre.queue|
        invariant exhausted ==> i == ExhaustedIndex(pre.queue) < |pre.queue|
        invariant anyLoss <==> InFlightCount(pre.queue[..i]) > 0
        decreases |sendQueue| - i, !exhausted
      {
        CountNext(pre.queue, i);
        LoseLength(pre, i + 1);
        var lost, stop := LoseChunk(i, pre);
        exhausted := stop;
        if !exhausted {
          anyLoss := anyLoss || lost;
          i := i + 1;
        }
      }
      LoseFrame(pre, ExhaustedIndex(pre.queue));
    }

    method OnRtxAlarm() returns (sent: seq<UserData>)
      requires Valid()
      modifies this, timers
      ensures Valid() && (Model(), sent) == (AlarmStep(old(Model())).0, AlarmStep(old(Model())).1)
      ensures timers.Model() ==
        if AlarmStep(old(Model())).2 then BackedOff(old(timers.Model())) else old(timers.Model())
    {
      hide SendInv, LoseFirst, ExhaustedIndex, InFlightCount;
      assert sendQueue[..|sendQueue|] == sendQueue;
      var anyLoss, exhausted := LoseAll();
      if exhausted {
        Close();
        return [];
      }
      ResetInv(Model(), anyLoss);
      LoseKeepsWindow(old(Model()));
      if anyLoss {
        congWnd := TIMEOUT_CONG_WND;
        timers.BackOff();
      } else {
        congWnd := INIT_CONG_WND;
      }
      ssthresh := Max(ssthresh, congWnd * 3 / 4);
      ackedBytesAccumulator := 0;
      dataPacketsCount := 0;
      sent := TrySend();
    }
  }

  lemma CountNext(cs: seq<Chunk>, i: nat)
    requires i < |cs|
    ensures InFlightCount(cs[..i + 1]) == InFlightCount(cs[..i]) + if cs[i].inFlight then 1 else 0
  {
    assert cs[..i + 1][..i] == cs[..i];
  }

  lemma LoseLength(s: SendState, n: nat)
    requires n <= |s.queue|
    ensures |LoseFirst(s, n).queue| == |s.queue|
  {
  }

  lemma LoseFrame(s: SendState, n: nat)
    requires n <= |s.queue|
    ensures var t := LoseFirst(s, n);
      t == s.(queue := t.queue, inflightBytes := t.inflightBytes, losses := t.losses)
  {
  }

  lemma LoseKeepsWindow(s: SendState)
    ensures LoseFirst(s, |s.queue|).window == s.window
  {
  }

  lemma LoseNone(s: SendState)
    ensures LoseFirst(s, 0) == s && InFlightCount(s.queue[..0]) == 0
  {
    assert s.queue[..0] == [] && Grounded([]) == [] && [] + s.queue[0..] == s.queue;
  }

  lemma BytesAccounted(s: SendState)
    requires SendInv(s)
    ensures s.inflightBytes == InFlightBytes(s.queue) >= 0
  {
  }

  /** One more chunk of the queue is given up. */
  lemma LoseNext(s: SendState, i: nat)
    requires i < |s.queue| && s.inflightBytes == InFlightBytes(s.queue)
    ensures LoseFirst(s, i).queue[i] == s.queue[i] && |LoseFirst(s, i).queue| == |s.queue|
    ensures LoseFirst(s, i).inflightBytes >= Flying(s.queue[i])
    ensures var c, t := s.queue[i], LoseFirst(s, i);
      LoseFirst(s, i + 1) ==
        if c.inFlight then
          t.(queue := t.queue[i := c.(inFlight := false)], inflightBytes := t.inflightBytes - |c.data|,
             losses := t.losses + 1)
        else t
  {
    hide Grounded, InFlightBytes;
    var cs := s.queue;
    assert cs[..i + 1] == cs[..i] + [cs[i]] && cs[..i + 1][..i] == cs[..i] && cs == cs[..i + 1] + cs[i + 1..];
    GroundNext(cs, i);
    CountNext(cs, i);
    InFlightSnoc(cs[..i], cs[i]);
    InFlightConcat(cs[..i + 1], cs[i + 1..]);
  }

  lemma GroundNext(cs: seq<Chunk>, i: nat)
    requires i < |cs|
    ensures var down := Grounded(cs[..i]) + cs[i..];
      && |down| == |cs| && down[i] == cs[i]
      && Grounded(cs[..i + 1]) + cs[i + 1..] == down[i := cs[i].(inFlight := false)]
      && (!cs[i].inFlight ==> down[i := cs[i].(inFlight := false)] == down)
  {
  }
}
