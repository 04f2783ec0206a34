/** When a transfer cannot come to its end any more, and how a long message brings that about. */
module Deadlocks {
  import opened ByteBuffers
  import opened ChunkCodecs
  import opened ChunkHeap
  import opened Completion
  import opened Congestion
  import opened Fragments
  import opened Packets
  import opened Protocol
  import opened Ranges
  import opened RecvFlows
  import opened SendFlows

  // ---------------------------------------------------------------- deadlock

  /**
   * The send window is closed, no data is under way, no ack under way opens the window, and with every whole
   * message read, what the receiver holds leaves less than one block of its buffer.
   */
  ghost predicate Stuck(link: Link, s: Sys) {
    && Inv(link, s) && s.snd.recvWnd == 0 && s.toReceiver == {}
    && !RoomTold(link, s) && Available(AfterReading(s.rcv)) < 1024
  }

  lemma ClosedWindow(s: SendState)
    requires s.recvWnd == 0 && s.inflightBytes >= 0
    ensures TrySendFrom(s, 0) == (s, [])
  {
  }

  predicate StaysClosed(s: SendState, t: SendState) {
    t.recvWnd == 0 && t.lastSeqnum >= s.lastSeqnum
  }

  lemma ClosedWindowSteps(s: SendState, m: Bytes, a: RangeAck)
    requires SendInv(s) && s.recvWnd == 0
    ensures SendStep(s, m).1 == [] && StaysClosed(s, SendStep(s, m).0)
    ensures AlarmStep(s).1 == [] && StaysClosed(s, AlarmStep(s).0)
    ensures a.bufAvail == 0 ==>
      var (t, data) := RangeAckStep(s, a.bufAvail, a.cumAck, a.ranges);
      data == [] && StaysClosed(s, t)
  {
    hide SendInv, TrySendFrom, ExhaustedIndex, InFlightCount, InFlightBytes, Grounded, Removed, Kept, AckedRanges,
         Updated, LostByNaks, NakAll, MaxTsn, SumData, AnyNak, Fragmented;
    EnqueuedInv(s, m);
    BytesAccounted(Enqueued(s, m));
    ClosedWindow(Enqueued(s, m));
    BytesAccounted(s);
    ClosedWindow(s);
    ExhaustedWithin(s.queue);
    LoseFirstInv(s, |s.queue|);
    LoseKeepsWindow(s);
    var anyLoss := InFlightCount(s.queue) > 0;
    ResetInv(LoseFirst(s, |s.queue|), anyLoss);
    var u := LoseFirst(s, |s.queue|).(window := TimedOut(s.window, anyLoss), dataPackets := 0);
    BytesAccounted(u);
    ClosedWindow(u);
    var removed := Removed(s.queue, AckedRanges(s, a.cumAck, a.ranges));
    AckedInv(s, a.cumAck, a.ranges);
    var v := Responded(s, Acked(s, a.cumAck, a.ranges), a.bufAvail, removed);
    RespondedInv(s, Acked(s, a.cumAck, a.ranges), a.bufAvail, removed);
    BytesAccounted(v);
    if a.bufAvail == 0 {
      ClosedWindow(v);
    }
  }

  lemma {:induction false} ClosedWindowAcks(s: SendState, acks: seq<RangeAck>)
    requires SendInv(s) && s.recvWnd == 0 && forall a :: a in acks ==> a.bufAvail == 0
    ensures AcknowledgeAll(s, acks).1 == [] && StaysClosed(s, AcknowledgeAll(s, acks).0)
    decreases |acks|
  {
    hide SendInv, RangeAckStep;
    if acks != [] {
      ClosedWindowSteps(s, [], acks[0]);
      AckKeepsInv(s, acks[0].bufAvail, acks[0].cumAck, acks[0].ranges);
      ClosedWindowAcks(RangeAckStep(s, acks[0].bufAvail, acks[0].cumAck, acks[0].ranges).0, acks[1..]);
    }
  }

  lemma AcksStayClosed(link: Link, before: set<Bytes>, sent: seq<Ack>, after: set<Bytes>)
    requires LinkOk(link) && CarriesAcks(link, before, sent, after)
    requires forall a :: a in sent ==> GapsFit(a.cumAck + 1, a.ranges) && a.bufAvail < 1024
    requires forall d, a :: d in before && a in AcksIn(link, d) ==> a.bufAvail == 0
    ensures forall d, a :: d in after && a in AcksIn(link, d) ==> a.bufAvail == 0
  {
    hide AcksIn, CipherOk, GapsFit, AckPacket, RangeAckBytes;
    forall d, a | d in after && a in AcksIn(link, d)
      ensures a.bufAvail == 0
    {
      if d !in before {
        var h, i :| HeaderOk(h) && 0 <= i < |sent| && d == AckPacket(link, h, sent[i]);
        AckPacketLength(link, h, sent[i]);
        AckArrival(link, h, sent[i]);
      }
    }
  }

  /** What a step does to a stuck system: nothing new is sent, and the receiver stays as full as it was. */
  lemma StuckStep(link: Link, s: Sys, e: Event)
    requires LinkOk(link) && Stuck(link, s) && Enabled(s, e)
    ensures var o := Step(link, s, e);
      && o.data == [] && StaysClosed(s.snd, o.sys.snd)
      && Available(AfterReading(o.sys.rcv)) == Available(AfterReading(s.rcv))
      && o.sys.rcv.lastOrdered == s.rcv.lastOrdered
      && (forall a :: a in o.acks ==> GapsFit(a.cumAck + 1, a.ranges) && a.bufAvail < 1024)
  {
    hide SendStep, AlarmStep, AcknowledgeAll, ReceiveAll, AcksIn, DataIn, EndIndex, Agreement, Stream, NonEmpty,
         AllGenuine, GapsFit, PendingRanges, SendInv, OrderedIs, ChannelOk, Available, CipherOk, SignatureOk,
         AfterReading, Join, SumData;
    match e
    case Submit(m) => ClosedWindowSteps(s.snd, m, RangeAck(0, 0, 0, []));
    case RtxAlarm => ClosedWindowSteps(s.snd, [], RangeAck(0, 0, 0, []));
    case AckArrives(d) => ClosedWindowAcks(s.snd, AcksIn(link, d));
    case AckDue =>
      AckIsTruthful(link, s.rcv);
      ReadingMakesRoom(s.rcv);
      ReadingCore(s.rcv, AfterAck(s.rcv));
    case ReadMessage => ReadingGoesOn(s.rcv);
    case _ =>
  }

  lemma ReadingGoesOn(r: RecvState)
    ensures AfterReading(ReadStep(r).0) == AfterReading(r)
  {
  }

  lemma StuckNext(link: Link, s: Sys, e: Event, t: Sys)
    requires LinkOk(link) && Stuck(link, s) && Next(link, s, e, t)
    ensures Stuck(link, t) && t.rcv.lastOrdered == s.rcv.lastOrdered && t.snd.lastSeqnum >= s.snd.lastSeqnum
  {
    hide Inv, Step, AcksIn, Available, AfterReading, GapsFit, CipherOk, SignatureOk;
    var o := Step(link, s, e);
    StuckStep(link, s, e);
    NextKeepsInv(link, s, e, t);
    AcksStayClosed(link, s.toSender, o.acks, t.toSender);
  }

  lemma {:induction false} StuckPath(link: Link, states: seq<Sys>, events: seq<Event>)
    requires LinkOk(link) && Path(link, states, events, false) && Stuck(link, states[0])
    ensures Stuck(link, states[|events|]) && states[|events|].rcv.lastOrdered == states[0].rcv.lastOrdered
    ensures states[|events|].snd.lastSeqnum >= states[0].snd.lastSeqnum
    decreases |events|
  {
    hide LinkOk, Next, Stuck;
    if events != [] {
      var n := |events| - 1;
      StuckPath(link, states[..n + 1], events[..n]);
      StuckNext(link, states[n], events[n], states[n + 1]);
    }
  }

  /** A receiver that has everything and has handed it over holds nothing. */
  lemma NothingLeft(r: RecvState, stream: seq<Chunk>)
    requires ReceiverOk(r, stream, |stream|)
    ensures Held(r) == 0 && Available(r) == MAX_RECV_BUF_SIZE
  {
    hide Normal, Covers, SumData, Indexed;
    BytesHeld(r);
    PendingWithin(r.pending, stream, |stream|);
    assert stream[|stream|..] == [];
    NothingHeld();
  }

  lemma StuckIncomplete(link: Link, s: Sys)
    requires Stuck(link, s)
    ensures !Completed(s)
  {
    hide SenderOk, ReceiverOk, ChannelOk, Stream, AcksIn, NonEmpty, Available, AfterReading;
    if s.taken == |s.sent| {
      StreamTaken(s.sent, s.taken);
      NothingLeft(s.rcv, Stream(s.sent));
      ReadingMakesRoom(s.rcv);
    }
  }

  /** Some continuation brings the transfer to its end. */
  ghost predicate Completable(link: Link, s: Sys, prompted: bool)
    requires LinkOk(link)
  {
    exists t :: Reaches(link, s, t, prompted) && Completed(t)
  }

  /**
   * Deadlock, exactly. In a reachable state with a closed window and no data under way, the transfer can be
   * completed if and only if the receiver has a block free once what is whole has been read, or an ack under
   * way says that it had one. That holds among all continuations and among the prompted ones.
   */
  lemma ClosedCompletes(link: Link, states: seq<Sys>, events: seq<Event>)
    requires LinkOk(link) && Run(link, states, events) && Live(link, states[|events|])
    requires states[|events|].snd.recvWnd == 0 && states[|events|].toReceiver == {}
    ensures var s := states[|events|];
      var room := Available(AfterReading(s.rcv)) >= 1024 || RoomTold(link, s);
      (Completable(link, s, false) <==> room) && (Completable(link, s, true) <==> room)
  {
    hide LinkOk, Next, Inv, Reaches, SmallIds, Completed, AfterReading, Available, ExhaustedIndex, Stream, Initial,
         RoomTold;
    var s := states[|events|];
    RunKeepsInv(link, states, events);
    if Available(AfterReading(s.rcv)) >= 1024 {
      ProbedRuns(link, states, events);
      var t := CanComplete(link, states, events);
      PromptedReaches(link, s, t, false);
    } else if RoomTold(link, s) {
      var t := OldAckCompletes(link, states, events);
      PromptedReaches(link, s, t, false);
    } else {
      forall t, prompted | Reaches(link, s, t, prompted)
        ensures !Completed(t)
      {
        StuckStays(link, s, t, prompted);
        StuckIncomplete(link, t);
      }
    }
  }

  lemma StuckStays(link: Link, s: Sys, t: Sys, prompted: bool)
    requires LinkOk(link) && Stuck(link, s) && Reaches(link, s, t, prompted)
    ensures Stuck(link, t) && t.rcv.lastOrdered == s.rcv.lastOrdered && t.snd.lastSeqnum >= s.snd.lastSeqnum
  {
    hide LinkOk, Next, Stuck, Prompted;
    var states, events :| Path(link, states, events, prompted) && states[0] == s && states[|events|] == t;
    assert Path(link, states, events, false);
    StuckPath(link, states, events);
  }

  /**
   * If a chunk is missing in a stuck system, then in no continuation does another chunk come into order, the
   * queue become empty, or everything sent get read.
   */
  lemma StuckNeverCompletes(link: Link, s: Sys, t: Sys)
    requires LinkOk(link) && Stuck(link, s) && s.rcv.lastOrdered < s.snd.lastSeqnum && Reaches(link, s, t, false)
    ensures t.rcv.lastOrdered == s.rcv.lastOrdered && t.snd.queue != [] && t.taken < |t.sent|
  {
    hide LinkOk, Reaches, Stream, Available, AfterReading, AcksIn, SendInv, Agreement, AllGenuine, NonEmpty, Covers,
         ChannelOk;
    StuckStays(link, s, t, false);
    NextIsMissing(t.rcv);
    assert HasNumber(t.snd.queue, t.rcv.lastOrdered + 1);
    StreamTaken(t.sent, t.taken);
  }

  // ------------------------------------------------- a message that is too long

  /** 718 segments: without the last of them, what is left of the receiver's buffer is still a block. */
  const LONGEST_SAFE := ((MAX_RECV_BUF_SIZE - 1024) / SMSS + 1) * SMSS

  lemma NothingStreamed()
    ensures Stream([]) == []
  {
  }

  lemma OnlyStream(m: Bytes)
    ensures Stream([m]) == Fragmented(m, 0) && Stream([m][..0]) == [] && [m][..1] == [m]
  {
    hide Stream, Fragmented;
    var none: seq<Bytes> := [];
    assert none + [m] == [m] && [m][..0] == none;
    NothingStreamed();
    StreamSnoc(none, m);
    assert [] + Fragmented(m, 0) == Fragmented(m, 0);
  }

  lemma OneMessageStream(m: Bytes)
    ensures Stream([m]) == Fragmented(m, 0) && Stream([m][..0]) == [] && [m][..1] == [m]
    ensures OneMessage(Stream([m])) && Numbered(Stream([m]), 0) && SumData(Stream([m])) == |m|
    ensures m != [] ==> |Stream([m])| == (|m| + SMSS - 1) / SMSS
    ensures m == [] ==> |Stream([m])| == 1
    ensures forall k :: 0 <= k < |Stream([m])| ==> |Stream([m])[k].data| <= SMSS
    ensures forall k :: 0 <= k < |Stream([m])| - 1 ==> |Stream([m])[k].data| == SMSS
  {
    hide Stream, Fragmented, Join, SumData, OneMessage, FitsSegment, Numbered;
    OnlyStream(m);
    FragmentShape(m, 0);
    JoinLength(Fragmented(m, 0));
    EmptyFragment(m);
  }

  lemma EmptyFragment(m: Bytes)
    ensures m == [] ==> |Fragmented(m, 0)| == 1
  {
  }

  lemma {:induction false} FullSum(cs: seq<Chunk>)
    requires forall k :: 0 <= k < |cs| ==> |cs[k].data| == SMSS
    ensures SumData(cs) == SMSS * |cs|
  {
    if cs != [] {
      FullSum(cs[1..]);
    }
  }

  /** A receiver that has all of a long message but its last chunk has no block left. */
  lemma AllButLast(r: RecvState, m: Bytes)
    requires ReceiverOk(r, Stream([m]), 0) && |m| > LONGEST_SAFE
    requires forall n: nat :: 1 <= n <= |Stream([m])| ==> (Covers(r.recvRanges, n) <==> n < |Stream([m])|)
    ensures Available(r) < 1024
  {
    hide Stream, AllGenuine, Covers, Normal, OneMessage, Ascending, SumData;
    var stream := Stream([m]);
    OneMessageStream(m);
    NextIsMissing(r);
    assert !Covers(r.recvRanges, |stream|);
    assert r.lastOrdered < |stream|;
    FullSum(stream[..|stream| - 1]);
    BytesHeld(r);
    assert r.ordered == stream[..|stream| - 1];
  }

  /** As long as a chunk of the only message is missing, there is nothing to read. */
  lemma NotWhole(r: RecvState, m: Bytes)
    requires OrderedIs(r, Stream([m]), 0) && r.lastOrdered < |Stream([m])|
    ensures EndIndex(r.ordered) == |r.ordered| && AfterReading(r) == r
  {
    hide Stream, EndsMessage;
    OneMessageStream(m);
    assert forall k :: 0 <= k < |r.ordered| ==> r.ordered[k] == Stream([m])[k];
  }

  /** A short message leaves a block free whenever all that is whole has been read. */
  lemma SafeRoom(r: RecvState, m: Bytes)
    requires ReceiverOk(r, Stream([m]), 0) && EndIndex(r.ordered) == |r.ordered| && |m| <= LONGEST_SAFE
    ensures Available(r) >= 1024
  {
    hide Stream, AllGenuine, Covers, Normal, Ascending, SumData, Indexed, EndIndex;
    var stream := Stream([m]);
    var lo := r.lastOrdered;
    OneMessageStream(m);
    BytesHeld(r);
    if lo == |stream| {
      assert r.ordered == stream + [];
      ReadsBackOne(stream, []);
    }
    PendingBeyond(r, stream);
    assert stream == stream[..lo] + ([stream[lo]] + stream[lo + 1..]);
    SumDataConcat(stream[..lo], [stream[lo]] + stream[lo + 1..]);
    SumDataConcat([stream[lo]], stream[lo + 1..]);
    OneSum(stream[lo]);
    assert r.ordered == stream[..lo];
    if lo == |stream| - 1 {
      FullSum(stream[..lo]);
      NothingHeld();
    }
  }

  lemma OneSum(c: Chunk)
    ensures SumData([c]) == |c.data|
  {
    assert [c][1..] == [];
  }

  lemma PendingBeyond(r: RecvState, stream: seq<Chunk>)
    requires Agreement(r) && AllGenuine(r.pending, stream) && r.lastOrdered < |stream|
    ensures SumData(r.pending) <= SumData(stream[r.lastOrdered + 1..]) && |r.pending| <= |stream|
  {
    hide AllGenuine, Covers, Normal, SumData, Indexed;
    PendingWithin(r.pending, stream, r.lastOrdered + 1);
  }

  /** No chunk was transmitted more than once, and what is not in flight never was. */
  predicate SentOnce(cs: seq<Chunk>) {
    forall k :: 0 <= k < |cs| ==> cs[k].sendCount <= if cs[k].inFlight then 1 else 0
  }

  lemma {:induction false} TrySendOnce(s: SendState, i: nat)
    requires i <= |s.queue| && SentOnce(s.queue)
    ensures SentOnce(TrySendFrom(s, i).0.queue)
    decreases |s.queue| - i
  {
    hide MaySend;
    if i < |s.queue| {
      TrySendOnce(if s.queue[i].inFlight then s else Transmitted(s, i), i + 1);
    }
  }

  lemma KeptOnce(queue: seq<Chunk>, acked: seq<Range>)
    requires SentOnce(queue)
    ensures SentOnce(Kept(queue, acked))
  {
    hide Kept, Covers;
    KeptWithin(queue, acked);
    forall k | 0 <= k < |Kept(queue, acked)|
      ensures Kept(queue, acked)[k] in queue
    {
      assert Kept(queue, acked)[k] in Kept(queue, acked);
    }
  }

  lemma FreshAckOnce(s: SendState, r: RecvState, config: FlowConfig, stream: seq<Chunk>)
    requires SenderOk(s, config, stream, r.recvRanges) && Agreement(r) && SentOnce(s.queue)
    requires forall c :: c in s.queue && c.inFlight ==> Covers(r.recvRanges, c.seqNum)
    ensures SentOnce(AckedBy(s, AckOf(r)).0.queue)
  {
    hide Covers, Kept, Removed, AckedRanges, SenderOk, Agreement, TrySendFrom, MaxTsn, NakAll, LostByNaks,
         InFlightBytes, Updated, AnyNak, SentOnce, PendingRanges, SumData;
    var a := AckOf(r);
    var acked := AckedRanges(s, a.cumAck, a.ranges);
    var removed := Removed(s.queue, acked);
    var u := Acked(s, a.cumAck, a.ranges);
    KeptOnce(s.queue, acked);
    FreshAckKeeps(s, r, config, stream);
    assert forall k :: 0 <= k < |u.queue| ==> u.queue[k] in u.queue;
    IdleUnmarked(u.queue, MaxTsn(removed));
    TrySendOnce(Responded(s, u, a.bufAvail - a.bufAvail % 1024, removed), 0);
  }

  /** The ack of a receiver without room for a block closes the window. */
  lemma FullAckCloses(s: SendState, r: RecvState, config: FlowConfig, stream: seq<Chunk>)
    requires SenderOk(s, config, stream, r.recvRanges) && Agreement(r) && Available(r) < 1024
    requires HasReceived(s.queue, r.recvRanges) && SentOnce(s.queue)
    ensures var (t, data) := AckedBy(s, AckOf(r));
      && data == [] && t.recvWnd == 0 && t.closed == s.closed
      && ExhaustedIndex(t.queue) == |t.queue|
  {
    hide Covers, Kept, Removed, AckedRanges, Agreement, SenderOk, SendInv, PendingRanges, TrySendFrom, MaxTsn,
         LostByNaks, InFlightBytes, Updated, HasReceived, AnyNak, SumData, ExhaustedIndex;
    var a := AckOf(r);
    var acked := AckedRanges(s, a.cumAck, a.ranges);
    var removed := Removed(s.queue, acked);
    FreshAckRemoves(s, r, config, stream);
    SenderParts(s, config, stream, r.recvRanges);
    AckedInv(s, a.cumAck, a.ranges);
    KeptOnce(s.queue, acked);
    var v := Responded(s, Acked(s, a.cumAck, a.ranges), 0, removed);
    RespondedInv(s, Acked(s, a.cumAck, a.ranges), 0, removed);
    BytesAccounted(v);
    ClosedWindow(v);
    ExhaustedWithin(v.queue);
  }

  lemma AllLost(link: Link, s: Sys) returns (t: Sys)
    requires LinkOk(link) && Inv(link, s)
    ensures Reaches(link, s, t, true) && Inv(link, t) && t == s.(toReceiver := {}, toSender := {})
  {
    hide Inv, Reaches, CipherOk, SignatureOk, DataPacket, AckPacket;
    t := s.(toReceiver := {}, toSender := {});
    StepReaches(link, s, Quiet, t, true);
  }

  /** A full receiver's ack closes the sender's window, and the channel loses all that is still under way. */
  lemma Shut(link: Link, s: Sys) returns (t: Sys)
    requires LinkOk(link) && OpenFlow(link, s) && AckUnderWay(link, s, AckOf(s.rcv))
    requires Available(s.rcv) < 1024 && AfterReading(s.rcv) == s.rcv
    requires HasReceived(s.snd.queue, s.rcv.recvRanges) && SentOnce(s.snd.queue)
    ensures Reaches(link, s, t, true) && Stuck(link, t) && t.sent == s.sent
    ensures t.rcv == s.rcv && t.taken == s.taken
    ensures Live(link, t)
  {
    hide CipherOk, SignatureOk, Inv, Reaches, HasReceived, Stream, SenderOk, AckUnderWay, DataPacket, SmallIds,
         Available, RangeAckStep, ReceiverOk, Agreement, AckOf, FlowOptions, AfterReading, ExhaustedIndex, SentOnce,
         AcksIn;
    InvParts(link, s);
    FullAckCloses(s.snd, s.rcv, link.flow, Stream(s.sent));
    var u := AckIn(link, s, AckOf(s.rcv));
    t := AllLost(link, u);
    ReachesThen(link, s, u, t, true);
  }

  /** The one message is too long, its last chunk has not arrived, and the receiver has a block left. */
  ghost predicate Filling(s: Sys, m: Bytes) {
    && s.sent == [m] && |m| > LONGEST_SAFE && s.taken == 0
    && !Covers(s.rcv.recvRanges, |Stream([m])|)
    && Available(s.rcv) >= 1024
    && SentOnce(s.snd.queue)
  }

  /** The launched chunks without the last one of the message. */
  function WithoutLast(data: seq<UserData>, m: Bytes): seq<UserData> {
    if data != [] && data[|data| - 1].seqNum == |Stream([m])| then data[..|data| - 1] else data
  }

  /** A launched run is in order, so that only its end can be the last chunk of the message. */
  lemma OnlyEndIsLast(s: SendState, data: seq<UserData>, config: FlowConfig, m: Bytes, received: seq<Range>)
    requires SenderOk(s, config, Stream([m]), received) && Launches(s, data)
    ensures !Names(WithoutLast(data, m), |Stream([m])|)
    ensures forall k :: 0 <= k < |data| ==> data[k].seqNum == s.queue[k].seqNum <= |Stream([m])|
  {
    hide Stream, SenderOk;
    SenderQueue(s, config, Stream([m]), received);
    assert forall k :: 0 <= k < |s.queue| ==> s.queue[k] in s.queue;
  }

  /** If the run ends with the last chunk of the message, or the queue does, all else is in front of it or received. */
  lemma AllElse(s: SendState, i: nat, config: FlowConfig, stream: seq<Chunk>, before: seq<Range>, received: seq<Range>)
    requires SenderOk(s, config, stream, before) && i < |s.queue| && s.queue[i].seqNum == |stream|
    requires forall n: nat :: Covers(before, n) ==> Covers(received, n)
    requires forall k :: 0 <= k < i ==> Covers(received, s.queue[k].seqNum)
    requires !Covers(received, |stream|)
    ensures forall n: nat :: 1 <= n <= |stream| ==> (Covers(received, n) <==> n < |stream|)
  {
    hide Covers, SenderOk;
    SenderQueue(s, config, stream, before);
    forall n: nat | 1 <= n < |stream|
      ensures Covers(received, n)
    {
      if HasNumber(s.queue, n) {
        var k :| 0 <= k < |s.queue| && s.queue[k].seqNum == n;
        assert k < i;
      }
    }
  }

  /** With a block left, some chunk other than the last is at the front of the queue. */
  lemma FrontIsEarlier(link: Link, s: Sys, data: seq<UserData>, m: Bytes)
    requires LinkOk(link) && RoundReady(link, s, data) && Filling(s, m) && data != []
    ensures WithoutLast(data, m) != [] && WithoutLast(data, m) <= data
    ensures !Names(WithoutLast(data, m), |Stream([m])|)
  {
    hide LinkOk, Inv, Sendable, UnderWay, Covers, Stream, ReceiverOk, SenderOk, Available, SentOnce, Names, SmallIds;
    InvParts(link, s);
    OneMessageStream(m);
    OnlyEndIsLast(s.snd, data, link.flow, m, s.rcv.recvRanges);
    if WithoutLast(data, m) == [] {
      AllElse(s.snd, 0, link.flow, Stream([m]), s.rcv.recvRanges, s.rcv.recvRanges);
      AllButLast(s.rcv, m);
    }
  }

  /** If a block is left after the chunks arrived, none was held back. */
  lemma NoneHeldBack(link: Link, s: Sys, data: seq<UserData>, m: Bytes, t: Sys)
    requires LinkOk(link) && RoundReady(link, s, data) && Filling(s, m) && data != []
    requires OpenFlow(link, t) && t.sent == [m] && t.taken == 0 && Available(t.rcv) >= 1024
    requires !Covers(t.rcv.recvRanges, |Stream([m])|)
    requires forall n: nat ::
      Covers(t.rcv.recvRanges, n) <==> Covers(s.rcv.recvRanges, n) || Names(WithoutLast(data, m), n)
    ensures WithoutLast(data, m) == data
  {
    hide LinkOk, Inv, Sendable, UnderWay, Covers, Stream, ReceiverOk, SenderOk, Available, SentOnce, SmallIds;
    InvParts(link, s);
    InvParts(link, t);
    OneMessageStream(m);
    OnlyEndIsLast(s.snd, data, link.flow, m, s.rcv.recvRanges);
    var part := WithoutLast(data, m);
    if part != data {
      forall k | 0 <= k < |data| - 1
        ensures Covers(t.rcv.recvRanges, s.snd.queue[k].seqNum)
      {
        assert part[k] in part && part[k].seqNum == s.snd.queue[k].seqNum;
        assert Names(part, part[k].seqNum);
      }
      AllElse(s.snd, |data| - 1, link.flow, Stream([m]), s.rcv.recvRanges, t.rcv.recvRanges);
      AllButLast(t.rcv, m);
    }
  }

  /** What has not arrived is queued, and keeps the message from being whole. */
  lemma LastMissing(link: Link, s: Sys, m: Bytes)
    requires Inv(link, s) && s.sent == [m] && s.taken == 0 && !Covers(s.rcv.recvRanges, |Stream([m])|)
    ensures s.snd.queue != [] && s.rcv.lastOrdered < |Stream([m])| == s.snd.lastSeqnum
    ensures AfterReading(s.rcv) == s.rcv
  {
    hide Stream, SendInv, AllGenuine, NonEmpty, Covers, ChannelOk, AfterReading, Sound, PlainAll;
    OneMessageStream(m);
    assert HasNumber(s.snd.queue, |Stream([m])|);
    NotWhole(s.rcv, m);
  }

  /** Round by round the buffer fills, until the sender has to stop in the middle of the message. */
  lemma {:induction false} Fill(link: Link, s: Sys, data: seq<UserData>, m: Bytes) returns (t: Sys)
    requires LinkOk(link) && RoundReady(link, s, data) && Filling(s, m) && data != []
    ensures Reaches(link, s, t, true) && Stuck(link, t) && t.sent == [m] && t.rcv.lastOrdered < t.snd.lastSeqnum
    ensures Live(link, t)
    decreases |s.snd.queue|
  {
    hide LinkOk, Reaches, Covers, HasReceived, Inv, Stuck, Stream, Sendable, UnderWay, Launches, AckUnderWay, Available,
         SentOnce, AfterReading, Live, SmallIds, RangeAckStep, Names, AckOf, WithoutLast;
    FrontIsEarlier(link, s, data, m);
    var u := HalfRound(link, s, data, WithoutLast(data, m));
    LastMissing(link, u, m);
    if Available(u.rcv) < 1024 {
      t := Shut(link, u);
      StuckMissing(link, t, m);
      ReachesThen(link, s, u, t, true);
    } else {
      NoneHeldBack(link, s, data, m, u);
      FlightReceived(s.snd, data, u.rcv.recvRanges);
      InvParts(link, u);
      FreshAckOnce(u.snd, u.rcv, link.flow, Stream(u.sent));
      var v, more := AckRound(link, u);
      LastMissing(link, v, m);
      ReachesThen(link, s, u, v, true);
      t := Fill(link, v, more, m);
      ReachesThen(link, s, v, t, true);
    }
  }

  lemma StuckMissing(link: Link, s: Sys, m: Bytes)
    requires Stuck(link, s) && s.sent == [m] && s.taken == 0 && !Covers(s.rcv.recvRanges, |Stream([m])|)
    ensures s.rcv.lastOrdered < s.snd.lastSeqnum
  {
    hide Inv, Stream, AcksIn, Available, AfterReading, Covers;
    LastMissing(link, s, m);
  }

  /** A message given to a sender that has nothing queued, and has not sent since the last ack, is sent at once. */
  lemma FreshQueue(s: SendState, m: Bytes)
    requires SendInv(s) && s.queue == [] && s.dataPackets == 0 && s.recvWnd > 0
    ensures var u := Enqueued(s, m);
      && SendInv(u) && u.queue == Fragmented(m, s.lastSeqnum) != [] && MaySend(u)
      && forall k :: 0 <= k < |u.queue| ==> !u.queue[k].inFlight
  {
    hide SendInv, Fragmented, MaySend, QueueOk, Join, FitsSegment;
    var u := Enqueued(s, m);
    EnqueuedInv(s, m);
    FragmentShape(m, s.lastSeqnum);
    FragmentsOk(m, s.lastSeqnum, s.tsn);
    assert u.queue == Fragmented(m, s.lastSeqnum);
    assert forall k :: 0 <= k < |u.queue| ==> u.queue[k] in u.queue;
    Idle(u);
  }

  lemma FirstSend(config: FlowConfig, m: Bytes)
    ensures var (t, data) := SendStep(OpenedSend(config), m);
      && Launches(t, data) && data != [] && !t.closed && SentOnce(t.queue)
  {
    hide TrySendFrom, Fragmented, Launches, MaySend, SendInv, OneMessage;
    var s := OpenedSend(config);
    var u := Enqueued(s, m);
    OpenedOk(config);
    FreshQueue(s, m);
    FragmentShape(m, 0);
    TrySendLaunches(u);
    TrySendEffect(u, 0);
    TrySendOnce(u, 0);
  }

  lemma OpenedOk(config: FlowConfig)
    ensures SendInv(OpenedSend(config))
  {
  }

  lemma FirstSendable(link: Link, m: Bytes)
    requires LinkOk(link) && SmallIds(link, Stream([m]))
    ensures Sendable(link, SendStep(OpenedSend(link.flow), m).1)
  {
    hide CipherOk, SignatureOk, Stream, SenderOk, Launches, Genuine, FlowOptions, SendStep, Fragmented, SentOnce,
         OneMessage, Numbered, SumData, DataShort;
    InitialInv(link);
    InvParts(link, Initial(link));
    NothingStreamed();
    OneMessageStream(m);
    assert [] + Stream([m]) == Stream([m]);
    MessageSubmitted(OpenedSend(link.flow), link.flow, m, [], []);
    FirstSend(link.flow, m);
    LaunchedSendable(link, SendStep(OpenedSend(link.flow), m).0, SendStep(OpenedSend(link.flow), m).1, Stream([m]));
  }

  /** The very first message is submitted, and what it launches gets under way. */
  lemma SubmitOut(link: Link, m: Bytes) returns (t: Sys, data: seq<UserData>)
    requires LinkOk(link) && SmallIds(link, Stream([m]))
    ensures Reaches(link, Initial(link), t, true) && RoundReady(link, t, data) && data != []
    ensures t.sent == [m] && t.taken == 0 && t.rcv == EMPTY_RECV_STATE && SentOnce(t.snd.queue)
  {
    hide CipherOk, SignatureOk, Inv, Reaches, Stream, Launches, SendStep, CarriesData, CarriesAcks, Sendable, SentOnce,
         SmallIds, DataDatagram;
    var s := Initial(link);
    InitialInv(link);
    FirstSend(link.flow, m);
    FirstSendable(link, m);
    var (u, out) := SendStep(s.snd, m);
    data := out;
    assert [] + [m] == [m];
    t := s.(snd := u, sent := [m], toReceiver := WithData(link, {}, data));
    WithDataCarried(link, {}, data);
    NothingCarried(link, s.toSender, [], []);
    StepReaches(link, s, Submit(m), t, true);
  }

  /** The state is reached by a run. */
  ghost predicate Reached(link: Link, t: Sys)
    requires LinkOk(link)
  {
    exists states, events :: Run(link, states, events) && states[|events|] == t
  }

  lemma ReachedByRun(link: Link, t: Sys)
    requires LinkOk(link) && Reaches(link, Initial(link), t, true)
    ensures Reached(link, t)
  {
    hide LinkOk, Next, Reaches, Initial;
    assert Run(link, [Initial(link)], []);
    RunReaches(link, [Initial(link)], [], t, true);
  }

  /** Whatever happens from t on, the receiver gets no further and a message stays unread. */
  ghost predicate Blocked(link: Link, t: Sys)
    requires LinkOk(link)
  {
    forall v :: Reaches(link, t, v, false) ==>
      v.rcv.lastOrdered == t.rcv.lastOrdered && v.snd.queue != [] && v.taken < |v.sent|
  }

  lemma StuckBlocks(link: Link, t: Sys)
    requires LinkOk(link) && Stuck(link, t) && t.rcv.lastOrdered < t.snd.lastSeqnum
    ensures Blocked(link, t)
  {
    hide LinkOk, Stuck, Reaches;
    forall v | Reaches(link, t, v, false)
      ensures v.rcv.lastOrdered == t.rcv.lastOrdered && v.snd.queue != [] && v.taken < |v.sent|
    {
      StuckNeverCompletes(link, t, v);
    }
  }

  /**
   * A message of more than 718 segments, though send accepts it, can bring the flow to a deadlock: the
   * receiver's buffer fills in the middle of the message, and no continuation ever delivers it.
   */
  lemma LongMessageDeadlocks(link: Link, m: Bytes) returns (t: Sys)
    requires LinkOk(link) && SmallIds(link, Stream([m])) && |m| > LONGEST_SAFE
    ensures Reached(link, t) && Reaches(link, Initial(link), t, true)
    ensures t.sent == [m] && Blocked(link, t) && Live(link, t)
  {
    hide LinkOk, RoundReady, Inv, Stuck, Stream, Reaches, SmallIds, Initial, Live, Blocked, Reached, SentOnce;
    var s, data := SubmitOut(link, m);
    NothingCovered(|Stream([m])|);
    t := Fill(link, s, data, m);
    ReachesThen(link, Initial(link), s, t, true);
    ReachedByRun(link, t);
    StuckBlocks(link, t);
  }

  lemma NothingCovered(n: nat)
    ensures !Covers(EMPTY_RECV_STATE.recvRanges, n) && Available(EMPTY_RECV_STATE) == MAX_RECV_BUF_SIZE
  {
  }

  /** A message of at most 718 segments can be completed from wherever a run has brought it. */
  lemma ShortMessageCompletes(link: Link, s: Sys, m: Bytes)
    requires LinkOk(link) && SmallIds(link, Stream([m])) && |m| <= LONGEST_SAFE
    requires Reached(link, s) && s.sent == [m] && !s.snd.closed && ExhaustedIndex(s.snd.queue) == |s.snd.queue|
    ensures Completable(link, s, false)
  {
    hide LinkOk, Next, Inv, Reaches, SmallIds, Completed, AfterReading, Available, ExhaustedIndex, Stream, Initial;
    var states, events :| Run(link, states, events) && states[|events|] == s;
    RunKeepsInv(link, states, events);
    ShortWaits(link, s, m);
    var u := ReadOut(link, s);
    ReadingMakesRoom(s.rcv);
    ShortLeavesRoom(link, u, m);
    var t := CanComplete(link, states, events);
    if s.rcv.delackAlarm || s.snd.probing {
      PromptedReaches(link, s, t, false);
    }
  }

  lemma ShortWaits(link: Link, s: Sys, m: Bytes)
    requires Inv(link, s) && s.sent == [m] && |m| <= LONGEST_SAFE
    ensures |s.rcv.pending| <= MAX_WAITING
  {
    hide SenderOk, ChannelOk, Stream, NonEmpty, SumData, AllGenuine, Ascending, Normal, Covers, Indexed, OneMessage;
    OneMessageStream(m);
    PendingWithin(s.rcv.pending, Stream([m]), s.rcv.lastOrdered);
  }

  lemma ShortLeavesRoom(link: Link, s: Sys, m: Bytes)
    requires Inv(link, s) && s.sent == [m] && |m| <= LONGEST_SAFE && EndIndex(s.rcv.ordered) == |s.rcv.ordered|
    ensures Available(s.rcv) >= 1024
  {
    hide SenderOk, ReceiverOk, ChannelOk, Stream, NonEmpty, EndIndex, Available;
    OneMessageStream(m);
    if s.taken == 0 {
      SafeRoom(s.rcv, m);
    } else {
      NothingLeft(s.rcv, Stream([m]));
    }
  }

  /** A run has brought an open flow, which no further timeout closes, to where its one message cannot get through. */
  ghost predicate Deadlocked(link: Link, s: Sys, m: Bytes)
    requires LinkOk(link)
  {
    && Reached(link, s) && s.sent == [m]
    && !s.snd.closed && ExhaustedIndex(s.snd.queue) == |s.snd.queue|
    && !Completable(link, s, false)
  }

  /** Exactly the messages of more than 718 segments can bring a flow that carries nothing else to a deadlock. */
  lemma DeadlocksExactly(link: Link, m: Bytes)
    requires LinkOk(link) && SmallIds(link, Stream([m]))
    ensures |m| > 718 * 1460 <==> exists s :: Deadlocked(link, s, m)
  {
    hide LinkOk, Stream, Reaches, SmallIds, ExhaustedIndex, Reached, Initial;
    if |m| > LONGEST_SAFE {
      var t := LongMessageDeadlocks(link, m);
      assert Deadlocked(link, t, m);
    } else {
      forall s | Deadlocked(link, s, m)
        ensures false
      {
        ShortMessageCompletes(link, s, m);
      }
    }
  }
}
