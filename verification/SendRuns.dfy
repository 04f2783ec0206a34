/** What runs of a send flow add up to: how often each chunk was transmitted, and when the flow gives up. */
module SendRuns {
  import opened ByteBuffers
  import opened ChunkCodecs
  import opened ChunkHeap
  import opened Congestion
  import opened Fragments
  import opened Ranges
  import opened SendFlows

  // ------------------------------------------------------ the log of a run

  /** What the flow hands to the session at an event. */
  function Emission(s: SendState, e: SendEvent): seq<UserData> {
    match e
    case Submitted(data) => SendStep(s, data).1
    case AckArrived(bufAvail, cumAck, ranges) => RangeAckStep(s, bufAvail, cumAck, ranges).1
    case AlarmFired => AlarmStep(s).1
    case CloseCalled => []
  }

  /** Everything emitted in a run, in order. */
  function Emitted(config: FlowConfig, events: seq<SendEvent>): seq<UserData> {
    if events == [] then []
    else
      Emitted(config, events[..|events| - 1])
      + Emission(AllHappened(config, events[..|events| - 1]).state, events[|events| - 1])
  }

  /** How many messages of the log carry the number. */
  function Times(log: seq<UserData>, n: nat): nat {
    if log == [] then 0 else Times(log[..|log| - 1], n) + if log[|log| - 1].seqNum == n then 1 else 0
  }

  lemma TimesSnoc(log: seq<UserData>, m: UserData, n: nat)
    ensures Times(log + [m], n) == Times(log, n) + if m.seqNum == n then 1 else 0
  {
    assert (log + [m])[..|log|] == log;
  }

  lemma {:induction false} NeverSent(log: seq<UserData>, n: nat)
    requires forall m :: m in log ==> m.seqNum != n
    ensures Times(log, n) == 0
  {
    if log != [] {
      assert log[|log| - 1] in log;
      NeverSent(log[..|log| - 1], n);
    }
  }

  // ------------------------------------------------ transmissions are counted

  predicate SentAsCounted(cs: seq<Chunk>, log: seq<UserData>) {
    forall c :: c in cs ==> c.sendCount == Times(log, c.seqNum)
  }

  predicate Numbers(log: seq<UserData>, last: nat) {
    forall m :: m in log ==> 1 <= m.seqNum <= last
  }

  predicate CountInv(s: SendState, log: seq<UserData>) {
    SendInv(s) && SentAsCounted(s.queue, log) && Numbers(log, s.lastSeqnum)
  }

  lemma TransmitCounts(s: SendState, i: nat, log: seq<UserData>)
    requires CountInv(s, log) && i < |s.queue| && !s.queue[i].inFlight && MaySend(s)
    ensures CountInv(Transmitted(s, i), log + [UserDataOf(s, i)])
  {
    hide SendInv, Times, MaySend;
    var t, d := Transmitted(s, i), UserDataOf(s, i);
    TransmitInv(s, i);
    QueueNumbers(s);
    UpdateWithin(s.queue, i, t.queue[i]);
    assert s.queue[i] in s.queue;
    forall c | c in t.queue
      ensures c.sendCount == Times(log + [d], c.seqNum)
    {
      var k :| 0 <= k < |t.queue| && t.queue[k] == c;
      TimesSnoc(log, d, c.seqNum);
      assert k != i ==> s.queue[k] == c && c in s.queue;
    }
  }

  lemma QueueNumbers(s: SendState)
    requires SendInv(s)
    ensures Ascending(s.queue) && forall c :: c in s.queue ==> 1 <= c.seqNum <= s.lastSeqnum
  {
    assert forall c :: c in s.queue ==> ChunkOk(c, s.lastSeqnum, s.tsn);
  }

  lemma {:induction false} TrySendCounts(s: SendState, i: nat, log: seq<UserData>)
    requires CountInv(s, log) && i <= |s.queue|
    ensures CountInv(TrySendFrom(s, i).0, log + TrySendFrom(s, i).1)
    decreases |s.queue| - i
  {
    hide CountInv, MaySend, UserDataOf;
    if i == |s.queue| || !MaySend(s) {
      assert log + [] == log;
    } else if s.queue[i].inFlight {
      TrySendCounts(s, i + 1, log);
    } else {
      TransmitCounts(s, i, log);
      TrySendCounts(Transmitted(s, i), i + 1, log + [UserDataOf(s, i)]);
      var rest := TrySendFrom(Transmitted(s, i), i + 1).1;
      assert log + ([UserDataOf(s, i)] + rest) == log + [UserDataOf(s, i)] + rest;
    }
  }

  lemma SubmitCounts(s: SendState, data: Bytes, log: seq<UserData>)
    requires CountInv(s, log)
    ensures CountInv(SendStep(s, data).0, log + SendStep(s, data).1)
  {
    hide TrySendFrom, Fragmented, Times, SendInv, Join, FitsSegment, OneMessage;
    if s.closed {
      assert log + [] == log;
    } else {
      var u := Enqueued(s, data);
      var cs := Fragmented(data, s.lastSeqnum);
      EnqueuedInv(s, data);
      FragmentShape(data, s.lastSeqnum);
      forall c | c in u.queue
        ensures c.sendCount == Times(log, c.seqNum)
      {
        if c !in s.queue {
          var k :| 0 <= k < |cs| && cs[k] == c;
          assert c == Plain(c) && c.seqNum > s.lastSeqnum;
          NeverSent(log, c.seqNum);
        }
      }
      TrySendCounts(u, 0, log);
    }
  }

  lemma NakSends(cs: seq<Chunk>, maxTsn: nat, log: seq<UserData>)
    requires SentAsCounted(cs, log)
    ensures SentAsCounted(NakAll(cs, maxTsn), log)
  {
    hide NakAll, Times;
    NakAllWithin(cs, maxTsn);
  }

  lemma AckCounts(s: SendState, bufAvail: nat, cumAck: nat, ranges: seq<Range>, log: seq<UserData>)
    requires CountInv(s, log)
    ensures var (t, sent) := RangeAckStep(s, bufAvail, cumAck, ranges);
      CountInv(t, log + sent)
  {
    hide TrySendFrom, Times, SendInv, Kept, Removed, AckedRanges, NakAll, LostByNaks, MaxTsn, SumData, Updated,
         InFlightBytes, AnyNak, Covers;
    var acked := AckedRanges(s, cumAck, ranges);
    var removed := Removed(s.queue, acked);
    var u := Acked(s, cumAck, ranges);
    AckedInv(s, cumAck, ranges);
    KeptWithin(s.queue, acked);
    assert CountInv(u, log);
    if AckIsValid(s, bufAvail, removed) {
      RespondedInv(s, u, bufAvail, removed);
      NakSends(u.queue, MaxTsn(removed), log);
      TrySendCounts(Responded(s, u, bufAvail, removed), 0, log);
    } else {
      assert log + [] == log;
    }
  }

  lemma GroundedSends(cs: seq<Chunk>, n: nat, log: seq<UserData>)
    requires SentAsCounted(cs, log) && n <= |cs|
    ensures SentAsCounted(Grounded(cs[..n]) + cs[n..], log)
  {
    hide Times;
    var out := Grounded(cs[..n]) + cs[n..];
    forall d | d in out
      ensures d.sendCount == Times(log, d.seqNum)
    {
      var i :| 0 <= i < |out| && out[i] == d;
      assert cs[i] in cs;
    }
  }

  lemma AlarmCounts(s: SendState, log: seq<UserData>)
    requires CountInv(s, log)
    ensures CountInv(AlarmStep(s).0, log + AlarmStep(s).1)
  {
    hide TrySendFrom, Times, SendInv, Grounded, ExhaustedIndex, InFlightCount, InFlightBytes, SentAsCounted;
    var n := ExhaustedIndex(s.queue);
    ExhaustedWithin(s.queue);
    GroundedSends(s.queue, n, log);
    LoseFirstInv(s, n);
    if n < |s.queue| {
      ClosedInv(LoseFirst(s, n));
      assert log + [] == log;
    } else {
      var anyLoss := InFlightCount(s.queue) > 0;
      LoseKeepsWindow(s);
      ResetInv(LoseFirst(s, n), anyLoss);
      TrySendCounts(LoseFirst(s, n).(window := TimedOut(s.window, anyLoss), dataPackets := 0), 0, log);
    }
  }

  lemma EventCounts(h: SendHistory, e: SendEvent, log: seq<UserData>)
    requires CountInv(h.state, log)
    ensures CountInv(Happened(h, e).state, log + Emission(h.state, e))
  {
    hide SendInv, Times, SendStep, RangeAckStep, AlarmStep;
    match e
    case Submitted(data) => SubmitCounts(h.state, data, log);
    case AckArrived(bufAvail, cumAck, ranges) => AckCounts(h.state, bufAvail, cumAck, ranges, log);
    case AlarmFired => AlarmCounts(h.state, log);
    case CloseCalled =>
      ClosedInv(h.state);
      assert log + [] == log;
  }

  lemma {:induction false} RunCounts(config: FlowConfig, events: seq<SendEvent>)
    ensures CountInv(AllHappened(config, events).state, Emitted(config, events))
  {
    hide Happened, Emission, Times;
    if events != [] {
      RunCounts(config, events[..|events| - 1]);
      EventCounts(AllHappened(config, events[..|events| - 1]), events[|events| - 1],
                  Emitted(config, events[..|events| - 1]));
    }
  }

  /** In every run the counter of a queued chunk is the number of times that it was handed to the session. */
  lemma TransmissionsCounted(config: FlowConfig, events: seq<SendEvent>, c: Chunk)
    requires c in AllHappened(config, events).state.queue
    ensures c.sendCount == Times(Emitted(config, events), c.seqNum)
  {
    hide AllHappened, Emitted, Times;
    RunCounts(config, events);
  }

  // ------------------------------------------------------ when the flow gives up

  /** A chunk in flight that was handed to the session more than ten times. */
  predicate GivenUp(s: SendState, log: seq<UserData>) {
    exists c :: c in s.queue && c.inFlight && Times(log, c.seqNum) > 10
  }

  lemma ExhaustedMeans(cs: seq<Chunk>)
    ensures ExhaustedIndex(cs) < |cs| <==> exists c :: c in cs && c.inFlight && c.sendCount > 10
  {
    hide ExhaustedIndex;
    ExhaustedWithin(cs);
  }

  lemma ClosedBy(s: SendState, e: SendEvent)
    ensures Happened(SendHistory(s, []), e).state.closed <==>
      s.closed || e.CloseCalled? || (e.AlarmFired? && ExhaustedIndex(s.queue) < |s.queue|)
  {
    hide TrySendFrom, ExhaustedIndex, InFlightCount, InFlightBytes, Grounded, Fragmented, AckedRanges, Kept, Removed,
         NakAll, LostByNaks, MaxTsn, SumData, Updated, AnyNak;
    match e
    case Submitted(data) => TrySendEffect(Enqueued(s, data), 0);
    case AckArrived(bufAvail, cumAck, ranges) =>
      var removed := Removed(s.queue, AckedRanges(s, cumAck, ranges));
      TrySendEffect(Responded(s, Acked(s, cumAck, ranges), bufAvail, removed), 0);
    case AlarmFired =>
      ExhaustedWithin(s.queue);
      TrySendEffect(LoseFirst(s, |s.queue|).(window := TimedOut(s.window, InFlightCount(s.queue) > 0),
                                             dataPackets := 0), 0);
    case CloseCalled =>
  }

  /** A timeout closes an open flow exactly when a chunk in flight has been transmitted more than ten times. */
  lemma AlarmCloses(config: FlowConfig, events: seq<SendEvent>)
    ensures AllHappened(config, events + [AlarmFired]).state.closed <==>
      AllHappened(config, events).state.closed || GivenUp(AllHappened(config, events).state, Emitted(config, events))
  {
    hide SendInv, Times, AlarmStep, Emitted, ExhaustedIndex;
    var h := AllHappened(config, events);
    assert (events + [AlarmFired])[..|events|] == events;
    assert AllHappened(config, events + [AlarmFired]) == Happened(h, AlarmFired);
    RunCounts(config, events);
    ClosedBy(h.state, AlarmFired);
    ExhaustedMeans(h.state.queue);
  }

  /** What closes a flow stops both timers and sends nothing, and from then on every message is refused. */
  lemma ClosingStops(h: SendHistory, e: SendEvent, m: Bytes)
    requires !h.state.closed && Happened(h, e).state.closed
    ensures var t := Happened(h, e).state;
      && !t.rtxAlarm && !t.probing && Emission(h.state, e) == [] && SendStep(t, m) == (t, [])
      && (forall k :: 0 <= k < |t.queue| && k < ExhaustedIndex(h.state.queue) && e.AlarmFired? ==> !t.queue[k].inFlight)
  {
    hide TrySendFrom, ExhaustedIndex, InFlightCount, InFlightBytes, RangeAckStep;
    ClosedBy(h.state, e);
    ExhaustedWithin(h.state.queue);
  }

  lemma {:induction false} TimesGrow(log: seq<UserData>, more: seq<UserData>, n: nat)
    ensures Times(log + more, n) >= Times(log, n)
    decreases |more|
  {
    if more == [] {
      assert log + more == log;
    } else {
      var k := |more| - 1;
      TimesGrow(log, more[..k], n);
      assert log + more == log + more[..k] + [more[k]];
      TimesSnoc(log + more[..k], more[k], n);
    }
  }

  /** A flow that nobody closes ends closed only if some number was handed to the session more than ten times. */
  lemma {:induction false} ClosesOnlyExhausted(config: FlowConfig, events: seq<SendEvent>)
    requires CloseCalled !in events && AllHappened(config, events).state.closed
    ensures exists n: nat :: Times(Emitted(config, events), n) > 10
  {
    hide SendInv, Times, Emission, SendStep, AlarmStep, RangeAckStep, ExhaustedIndex;
    if events != [] {
      var before, e := events[..|events| - 1], events[|events| - 1];
      var h := AllHappened(config, before);
      ClosedBy(h.state, e);
      assert e in events;
      if h.state.closed {
        ClosesOnlyExhausted(config, before);
      } else {
        ExhaustedMeans(h.state.queue);
        RunCounts(config, before);
      }
      var n: nat :| Times(Emitted(config, before), n) > 10;
      TimesGrow(Emitted(config, before), Emission(h.state, e), n);
      assert Emitted(config, events) == Emitted(config, before) + Emission(h.state, e);
    }
  }

  // -------------------------------------------- a message that nobody acks

  function Timeouts(n: nat): seq<SendEvent> {
    seq(n, i => AlarmFired)
  }

  /** One chunk in an open flow with an open window, in flight since its transmission number count. */
  predicate Lonely(s: SendState, count: nat) {
    && SendInv(s) && !s.closed && s.recvWnd > 0
    && |s.queue| == 1 && s.queue[0].inFlight && s.queue[0].sendCount == count
  }

  lemma LoneSent(s: SendState)
    requires SendInv(s) && !s.closed && s.recvWnd > 0 && s.dataPackets == 0
    requires |s.queue| == 1 && !s.queue[0].inFlight
    ensures Lonely(TrySendFrom(s, 0).0, s.queue[0].sendCount + 1)
  {
    hide SendInv, MaySend;
    Idle(s);
    TransmitInv(s, 0);
    assert TrySendFrom(Transmitted(s, 0), 1) == (Transmitted(s, 0), []);
  }

  lemma LoneSubmitted(config: FlowConfig, m: Bytes)
    requires |m| <= 1460
    ensures Lonely(SendStep(OpenedSend(config), m).0, 1)
  {
    hide TrySendFrom, MaySend, SendInv;
    var s := OpenedSend(config);
    assert SendInv(s) by {
      OpenedInv(config);
    }
    EnqueuedInv(s, m);
    LoneSent(Enqueued(s, m));
  }

  lemma OpenedInv(config: FlowConfig)
    ensures SendInv(OpenedSend(config))
  {
  }

  lemma LoneTimeout(s: SendState, count: nat)
    requires Lonely(s, count)
    ensures count <= 10 ==> Lonely(AlarmStep(s).0, count + 1)
    ensures count > 10 ==> AlarmStep(s).0.closed
  {
    hide TrySendFrom, ExhaustedIndex, InFlightCount, InFlightBytes, SendInv;
    ExhaustedMeans(s.queue);
    ExhaustedWithin(s.queue);
    if count <= 10 {
      var anyLoss := InFlightCount(s.queue) > 0;
      var u := LoseFirst(s, 1).(window := TimedOut(s.window, anyLoss), dataPackets := 0);
      LoseFirstInv(s, 1);
      LoseKeepsWindow(s);
      ResetInv(LoseFirst(s, 1), anyLoss);
      LoneSent(u);
    }
  }

  lemma {:induction false} LoneTimeouts(config: FlowConfig, m: Bytes, n: nat)
    requires |m| <= 1460
    ensures var s := AllHappened(config, [Submitted(m)] + Timeouts(n)).state;
      if n <= 10 then Lonely(s, n + 1) else s.closed
    decreases n
  {
    hide SendStep, AlarmStep;
    var events := [Submitted(m)] + Timeouts(n);
    if n == 0 {
      assert events[..0] == [] && events[0] == Submitted(m);
      LoneSubmitted(config, m);
    } else {
      assert events[..n] == [Submitted(m)] + Timeouts(n - 1) && events[n] == AlarmFired;
      LoneTimeouts(config, m, n - 1);
      var s := AllHappened(config, events[..n]).state;
      if n <= 11 {
        LoneTimeout(s, n);
      } else {
        ClosedBy(s, AlarmFired);
      }
    }
  }

  /** A message of one segment that is never acked closes the flow at the eleventh timeout, and not before. */
  lemma EleventhTimeoutCloses(config: FlowConfig, m: Bytes, n: nat)
    requires |m| <= 1460
    ensures AllHappened(config, [Submitted(m)] + Timeouts(n)).state.closed <==> n >= 11
  {
    hide AllHappened;
    LoneTimeouts(config, m, n);
  }

  // ------------------------------------------- every transmission is accounted for

  lemma CountSnoc(cs: seq<Chunk>, c: Chunk)
    ensures InFlightCount(cs + [c]) == InFlightCount(cs) + if c.inFlight then 1 else 0
  {
    assert (cs + [c])[..|cs|] == cs;
  }

  lemma {:induction false} CountConcat(a: seq<Chunk>, b: seq<Chunk>)
    ensures InFlightCount(a + b) == InFlightCount(a) + InFlightCount(b)
    decreases |b|
  {
    if b == [] {
      assert a + b == a;
    } else {
      var n := |b| - 1;
      assert a + b == (a + b[..n]) + [b[n]];
      CountConcat(a, b[..n]);
      CountSnoc(a + b[..n], b[n]);
    }
  }

  lemma CountUpdate(cs: seq<Chunk>, i: nat, c: Chunk)
    requires i < |cs| && !cs[i].inFlight && c.inFlight
    ensures InFlightCount(cs[i := c]) == InFlightCount(cs) + 1
  {
    hide InFlightCount;
    assert cs == cs[..i] + [cs[i]] + cs[i + 1..];
    assert cs[i := c] == cs[..i] + [c] + cs[i + 1..];
    CountSnoc(cs[..i], cs[i]);
    CountSnoc(cs[..i], c);
    CountConcat(cs[..i] + [cs[i]], cs[i + 1..]);
    CountConcat(cs[..i] + [c], cs[i + 1..]);
  }

  lemma {:induction false} CountNone(cs: seq<Chunk>)
    requires forall k :: 0 <= k < |cs| ==> !cs[k].inFlight
    ensures InFlightCount(cs) == 0
  {
    if cs != [] {
      CountNone(cs[..|cs| - 1]);
    }
  }

  lemma {:induction false} CountSplit(cs: seq<Chunk>, acked: seq<Range>)
    ensures InFlightCount(cs) == InFlightCount(Kept(cs, acked)) + InFlightCount(Removed(cs, acked))
  {
    hide Covers;
    if cs != [] {
      var n := |cs| - 1;
      CountSplit(cs[..n], acked);
      CountSnoc(Kept(cs[..n], acked), cs[n]);
      CountSnoc(Removed(cs[..n], acked), cs[n]);
    }
  }

  lemma {:induction false} CountNaked(cs: seq<Chunk>, maxTsn: nat)
    ensures InFlightCount(NakAll(cs, maxTsn)) == InFlightCount(cs) - |LostByNaks(cs, maxTsn)|
  {
    if cs != [] {
      var n := |cs| - 1;
      CountNaked(cs[..n], maxTsn);
      NakAllSnoc(cs, maxTsn);
      CountSnoc(NakAll(cs[..n], maxTsn), Nak(cs[n], maxTsn));
    }
  }

  /** How many chunks the acks of the run took out of flight. */
  function Credited(config: FlowConfig, events: seq<SendEvent>): nat {
    if events == [] then 0
    else
      Credited(config, events[..|events| - 1])
      + CreditedAt(AllHappened(config, events[..|events| - 1]).state, events[|events| - 1])
  }

  function CreditedAt(s: SendState, e: SendEvent): nat {
    match e
    case AckArrived(_, cumAck, ranges) => InFlightCount(Removed(s.queue, AckedRanges(s, cumAck, ranges)))
    case _ => 0
  }

  predicate Conserved(s: SendState, sent: nat, credited: nat) {
    s.tsn == sent == InFlightCount(s.queue) + s.losses + credited
  }

  lemma {:induction false} TrySendConserves(s: SendState, i: nat, sent: nat, credited: nat)
    requires Conserved(s, sent, credited) && i <= |s.queue|
    ensures Conserved(TrySendFrom(s, i).0, sent + |TrySendFrom(s, i).1|, credited)
    decreases |s.queue| - i
  {
    hide MaySend, InFlightCount;
    if i < |s.queue| && MaySend(s) {
      if s.queue[i].inFlight {
        TrySendConserves(s, i + 1, sent, credited);
      } else {
        CountUpdate(s.queue, i, Launched(s.queue[i], s.tsn + 1));
        TrySendConserves(Transmitted(s, i), i + 1, sent + 1, credited);
      }
    }
  }

  lemma SubmitConserves(s: SendState, data: Bytes, sent: nat, credited: nat)
    requires Conserved(s, sent, credited)
    ensures Conserved(SendStep(s, data).0, sent + |SendStep(s, data).1|, credited)
  {
    hide TrySendFrom, InFlightCount, Fragmented, Join, FitsSegment;
    if !s.closed {
      var cs := Fragmented(data, s.lastSeqnum);
      FragmentShape(data, s.lastSeqnum);
      CountNone(cs);
      CountConcat(s.queue, cs);
      TrySendConserves(Enqueued(s, data), 0, sent, credited);
    }
  }

  lemma AckConserves(s: SendState, bufAvail: nat, cumAck: nat, ranges: seq<Range>, sent: nat, credited: nat)
    requires Conserved(s, sent, credited)
    ensures var (t, data) := RangeAckStep(s, bufAvail, cumAck, ranges);
      Conserved(t, sent + |data|, credited + InFlightCount(Removed(s.queue, AckedRanges(s, cumAck, ranges))))
  {
    hide TrySendFrom, InFlightCount, Kept, Removed, AckedRanges, NakAll, LostByNaks, MaxTsn, SumData, Updated,
         InFlightBytes, AnyNak;
    var acked := AckedRanges(s, cumAck, ranges);
    var removed := Removed(s.queue, acked);
    var u := Acked(s, cumAck, ranges);
    CountSplit(s.queue, acked);
    if AckIsValid(s, bufAvail, removed) {
      CountNaked(u.queue, MaxTsn(removed));
      TrySendConserves(Responded(s, u, bufAvail, removed), 0, sent, credited + InFlightCount(removed));
    }
  }

  lemma LoseConserves(s: SendState, n: nat, sent: nat, credited: nat)
    requires Conserved(s, sent, credited) && n <= |s.queue|
    ensures Conserved(LoseFirst(s, n), sent, credited)
  {
    hide InFlightCount, InFlightBytes;
    assert s.queue == s.queue[..n] + s.queue[n..];
    CountConcat(s.queue[..n], s.queue[n..]);
    CountConcat(Grounded(s.queue[..n]), s.queue[n..]);
    CountNone(Grounded(s.queue[..n]));
  }

  lemma AlarmConserves(s: SendState, sent: nat, credited: nat)
    requires Conserved(s, sent, credited)
    ensures Conserved(AlarmStep(s).0, sent + |AlarmStep(s).1|, credited)
  {
    hide TrySendFrom, InFlightCount, InFlightBytes, ExhaustedIndex, Grounded;
    var n := ExhaustedIndex(s.queue);
    ExhaustedWithin(s.queue);
    LoseConserves(s, n, sent, credited);
    if n == |s.queue| {
      TrySendConserves(LoseFirst(s, n).(window := TimedOut(s.window, InFlightCount(s.queue) > 0), dataPackets := 0),
                       0, sent, credited);
    }
  }

  lemma EventConserves(h: SendHistory, e: SendEvent, sent: nat, credited: nat)
    requires Conserved(h.state, sent, credited)
    ensures Conserved(Happened(h, e).state, sent + |Emission(h.state, e)|, credited + CreditedAt(h.state, e))
  {
    hide InFlightCount, SendStep, RangeAckStep, AlarmStep;
    match e
    case Submitted(data) => SubmitConserves(h.state, data, sent, credited);
    case AckArrived(bufAvail, cumAck, ranges) => AckConserves(h.state, bufAvail, cumAck, ranges, sent, credited);
    case AlarmFired => AlarmConserves(h.state, sent, credited);
    case CloseCalled =>
  }

  /** In every run each transmission is in flight, was given up as lost, or was taken out of flight by an ack. */
  lemma {:induction false} TransmissionsConserved(config: FlowConfig, events: seq<SendEvent>)
    ensures var s := AllHappened(config, events).state;
      s.tsn == |Emitted(config, events)| == InFlightCount(s.queue) + s.losses + Credited(config, events)
  {
    hide Happened, Emission, InFlightCount, CreditedAt;
    if events != [] {
      var before := events[..|events| - 1];
      TransmissionsConserved(config, before);
      EventConserves(AllHappened(config, before), events[|events| - 1], |Emitted(config, before)|,
                     Credited(config, before));
    } else {
      NoneInFlight();
    }
  }

  lemma NoneInFlight()
    ensures InFlightCount([]) == 0
  {
  }

  // ---------------------------------------------------------- flow control

  /** The ack removes something from the queue, or reopens the window of a sender that probes. */
  predicate HasNews(s: SendState, bufAvail: nat, cumAck: nat, ranges: seq<Range>) {
    || (exists c :: c in s.queue && (c.seqNum <= cumAck || Covers(ranges, c.seqNum) || Covers(s.ackRanges, c.seqNum)))
    || (bufAvail > 0 && s.probing)
  }

  /** The free buffer that the receiver told last, in an ack with news; thirty segments before the first. */
  function Told(config: FlowConfig, events: seq<SendEvent>): nat {
    if events == [] then 43800
    else
      var e := events[|events| - 1];
      var before := events[..|events| - 1];
      if e.AckArrived? && HasNews(AllHappened(config, before).state, e.bufAvail, e.cumAck, e.ranges) then e.bufAvail
      else Told(config, before)
  }

  /** How many chunks were emitted since the last ack or timeout, those that it called for included. */
  function Burst(config: FlowConfig, events: seq<SendEvent>): nat {
    if events == [] then 0
    else
      var e := events[|events| - 1];
      var s := AllHappened(config, events[..|events| - 1]).state;
      |Emission(s, e)| + if AckOrTimeout(s, e) then 0 else Burst(config, events[..|events| - 1])
  }

  /** A timeout that closes the flow starts no new burst. */
  predicate AckOrTimeout(s: SendState, e: SendEvent) {
    e.AckArrived? || (e.AlarmFired? && ExhaustedIndex(s.queue) == |s.queue|)
  }

  lemma NewsMeans(s: SendState, bufAvail: nat, cumAck: nat, ranges: seq<Range>)
    requires SendInv(s)
    ensures HasNews(s, bufAvail, cumAck, ranges) <==>
      AckIsValid(s, bufAvail, Removed(s.queue, AckedRanges(s, cumAck, ranges)))
  {
    hide Covers, AckedRanges, Removed, Normal, Ascending, QueueOk, TsnDistinct;
    var acked := AckedRanges(s, cumAck, ranges);
    var removed := Removed(s.queue, acked);
    KeptWithin(s.queue, acked);
    forall c | c in s.queue
      ensures Covers(acked, c.seqNum) <==>
        c.seqNum <= cumAck || Covers(ranges, c.seqNum) || Covers(s.ackRanges, c.seqNum)
    {
      AckedCovers(s, cumAck, ranges, c.seqNum);
    }
    if removed != [] {
      assert removed[0] in removed;
    }
  }

  /** Receive window and burst counter are what the run says they are. */
  predicate Controlled(s: SendState, told: nat, burst: nat) {
    s.recvWnd == told && s.dataPackets == burst
  }

  lemma TrySendControlled(s: SendState, told: nat, burst: nat)
    requires SendInv(s) && Controlled(s, told, burst)
    ensures Controlled(TrySendFrom(s, 0).0, told, burst + |TrySendFrom(s, 0).1|)
  {
    hide SendInv, TrySendFrom;
    TrySendEffect(s, 0);
    TrySendLimits(s, 0);
  }

  lemma AckControlled(s: SendState, bufAvail: nat, cumAck: nat, ranges: seq<Range>, told: nat, burst: nat)
    requires SendInv(s) && Controlled(s, told, burst)
    ensures var (t, data) := RangeAckStep(s, bufAvail, cumAck, ranges);
      Controlled(t, if HasNews(s, bufAvail, cumAck, ranges) then bufAvail else told, |data|)
  {
    hide SendInv, TrySendFrom, Kept, Removed, AckedRanges, NakAll, LostByNaks, MaxTsn, SumData, Updated,
         InFlightBytes, AnyNak, HasNews;
    var removed := Removed(s.queue, AckedRanges(s, cumAck, ranges));
    var u := Acked(s, cumAck, ranges);
    NewsMeans(s, bufAvail, cumAck, ranges);
    AckedInv(s, cumAck, ranges);
    if AckIsValid(s, bufAvail, removed) {
      RespondedInv(s, u, bufAvail, removed);
      TrySendControlled(Responded(s, u, bufAvail, removed), bufAvail, 0);
    }
  }

  lemma AlarmControlled(s: SendState, told: nat, burst: nat)
    requires SendInv(s) && Controlled(s, told, burst)
    ensures Controlled(AlarmStep(s).0, told,
                       |AlarmStep(s).1| + if ExhaustedIndex(s.queue) == |s.queue| then 0 else burst)
  {
    hide SendInv, TrySendFrom, InFlightCount, InFlightBytes, ExhaustedIndex, Grounded;
    var n := ExhaustedIndex(s.queue);
    ExhaustedWithin(s.queue);
    if n == |s.queue| {
      var anyLoss := InFlightCount(s.queue) > 0;
      LoseFirstInv(s, n);
      LoseKeepsWindow(s);
      ResetInv(LoseFirst(s, n), anyLoss);
      TrySendControlled(LoseFirst(s, n).(window := TimedOut(s.window, anyLoss), dataPackets := 0), told, 0);
    }
  }

  lemma EventControlled(h: SendHistory, e: SendEvent, told: nat, burst: nat)
    requires SendInv(h.state) && Controlled(h.state, told, burst)
    ensures Controlled(Happened(h, e).state,
      if e.AckArrived? && HasNews(h.state, e.bufAvail, e.cumAck, e.ranges) then e.bufAvail else told,
      |Emission(h.state, e)| + if AckOrTimeout(h.state, e) then 0 else burst)
  {
    hide SendInv, TrySendFrom, RangeAckStep, AlarmStep, HasNews, ExhaustedIndex, Fragmented;
    match e
    case Submitted(data) =>
      if !h.state.closed {
        EnqueuedInv(h.state, data);
        TrySendControlled(Enqueued(h.state, data), told, burst);
      }
    case AckArrived(bufAvail, cumAck, ranges) => AckControlled(h.state, bufAvail, cumAck, ranges, told, burst);
    case AlarmFired => AlarmControlled(h.state, told, burst);
    case CloseCalled =>
  }

  lemma {:induction false} RunControlled(config: FlowConfig, events: seq<SendEvent>)
    ensures Controlled(AllHappened(config, events).state, Told(config, events), Burst(config, events))
  {
    hide Happened, Emission, HasNews, AckOrTimeout, SendInv;
    if events != [] {
      var before := events[..|events| - 1];
      RunControlled(config, before);
      RunCounts(config, before);
      EventControlled(AllHappened(config, before), events[|events| - 1], Told(config, before), Burst(config, before));
    }
  }

  /**
   * Flow control, burst control and congestion control in every run: at most six chunks go out between acks or
   * timeouts, and whenever an event makes the flow send, less than a segment is in flight beyond what the
   * receiver told last, and beyond the congestion window.
   */
  lemma FlowControlled(config: FlowConfig, events: seq<SendEvent>, e: SendEvent)
    ensures Burst(config, events) <= 6
    ensures Emission(AllHappened(config, events).state, e) != [] ==>
      var s := AllHappened(config, events + [e]).state;
      s.inflightBytes < Told(config, events + [e]) + 1460 && s.inflightBytes < s.window.congWnd + 1460
  {
    hide Emission, Happened, Told, Burst, SendInv;
    var h := AllHappened(config, events);
    RunControlled(config, events);
    RunControlled(config, events + [e]);
    RunCounts(config, events);
    AtMostSix(h.state);
    assert (events + [e])[..|events|] == events;
    if Emission(h.state, e) != [] {
      SendsWithin(h, e);
    }
  }

  lemma AtMostSix(s: SendState)
    requires SendInv(s)
    ensures s.dataPackets <= 6
  {
  }

  lemma SendsWithin(h: SendHistory, e: SendEvent)
    requires SendInv(h.state) && Emission(h.state, e) != []
    ensures var s := Happened(h, e).state;
      s.inflightBytes < s.recvWnd + 1460 && s.inflightBytes < s.window.congWnd + 1460
  {
    hide SendInv, TrySendFrom, Kept, Removed, AckedRanges, NakAll, LostByNaks, MaxTsn, SumData, Updated,
         InFlightBytes, AnyNak, InFlightCount, ExhaustedIndex, Grounded, Fragmented;
    var s := h.state;
    match e
    case Submitted(data) =>
      EnqueuedInv(s, data);
      SentWithin(Enqueued(s, data), 0);
    case AckArrived(bufAvail, cumAck, ranges) =>
      var u := Acked(s, cumAck, ranges);
      AckedInv(s, cumAck, ranges);
      var removed := Removed(s.queue, AckedRanges(s, cumAck, ranges));
      RespondedInv(s, u, bufAvail, removed);
      SentWithin(Responded(s, u, bufAvail, removed), 0);
    case AlarmFired =>
      var anyLoss := InFlightCount(s.queue) > 0;
      ExhaustedWithin(s.queue);
      LoseFirstInv(s, |s.queue|);
      LoseKeepsWindow(s);
      ResetInv(LoseFirst(s, |s.queue|), anyLoss);
      SentWithin(LoseFirst(s, |s.queue|).(window := TimedOut(s.window, anyLoss), dataPackets := 0), 0);
    case CloseCalled =>
  }

  lemma {:induction false} SentWithin(s: SendState, i: nat)
    requires SendInv(s) && i <= |s.queue|
    ensures var (t, sent) := TrySendFrom(s, i);
      && t.recvWnd == s.recvWnd && t.window == s.window && (sent == [] ==> t == s)
      && (sent != [] ==> t.inflightBytes < s.recvWnd + 1460 && t.inflightBytes < s.window.congWnd + 1460)
    decreases |s.queue| - i
  {
    hide SendInv;
    if i < |s.queue| && MaySend(s) {
      if s.queue[i].inFlight {
        SentWithin(s, i + 1);
      } else {
        TransmitInv(s, i);
        SentWithin(Transmitted(s, i), i + 1);
      }
    }
  }

  // ------------------------------------------------------------ repeated acks

  lemma {:induction false} NothingRemoved(cs: seq<Chunk>, acked: seq<Range>)
    requires forall c :: c in cs ==> !Covers(acked, c.seqNum)
    ensures Kept(cs, acked) == cs && Removed(cs, acked) == []
  {
    hide Covers;
    if cs != [] {
      var n := |cs| - 1;
      assert cs == cs[..n] + [cs[n]];
      NothingRemoved(cs[..n], acked);
    }
  }

  /** An ack that claims nothing new and cannot reopen a window leaves the flow alone, but for its burst counter. */
  lemma StaleAck(s: SendState, bufAvail: nat, cumAck: nat, ranges: seq<Range>)
    requires SendInv(s) && !HasNews(s, bufAvail, cumAck, ranges)
    requires forall n: nat :: n <= cumAck || Covers(ranges, n) ==> Covers(s.ackRanges, n)
    ensures RangeAckStep(s, bufAvail, cumAck, ranges) == (s.(dataPackets := 0), [])
  {
    hide Covers, AckedRanges, Kept, Removed, Normal, HasNews;
    var acked := AckedRanges(s, cumAck, ranges);
    NewsMeans(s, bufAvail, cumAck, ranges);
    NothingNew(s, cumAck, ranges);
    KeptWithin(s.queue, acked);
    assert Removed(s.queue, acked) == [];
    forall c | c in s.queue
      ensures !Covers(acked, c.seqNum)
    {
      assert Covers(acked, c.seqNum) ==> c in Removed(s.queue, acked);
    }
    NothingRemoved(s.queue, acked);
  }

  lemma NothingNew(s: SendState, cumAck: nat, ranges: seq<Range>)
    requires SendInv(s) && forall n: nat :: n <= cumAck || Covers(ranges, n) ==> Covers(s.ackRanges, n)
    ensures AckedRanges(s, cumAck, ranges) == s.ackRanges
  {
    hide Covers, AckedRanges, Normal, QueueOk, Ascending, TsnDistinct;
    var acked := AckedRanges(s, cumAck, ranges);
    AckedNormal(s, cumAck, ranges);
    forall n: nat
      ensures Covers(acked, n) <==> Covers(s.ackRanges, n)
    {
      AckedCovers(s, cumAck, ranges, n);
    }
    CanonicalForm(acked, s.ackRanges);
  }

  lemma AckedNormal(s: SendState, cumAck: nat, ranges: seq<Range>)
    requires SendInv(s)
    ensures Normal(AckedRanges(s, cumAck, ranges))
  {
    hide Kept, Removed, InFlightBytes, AckedRanges;
    AckedInv(s, cumAck, ranges);
  }

  /** An ack that arrives again changes nothing and sends nothing. */
  lemma AckTwice(s: SendState, bufAvail: nat, cumAck: nat, ranges: seq<Range>)
    requires SendInv(s)
    ensures var t := RangeAckStep(s, bufAvail, cumAck, ranges).0;
      RangeAckStep(t, bufAvail, cumAck, ranges) == (t.(dataPackets := 0), [])
  {
    hide Covers, AckedRanges, Kept, RangeAckStep, SendInv, PlainAll, Normal;
    var t := RangeAckStep(s, bufAvail, cumAck, ranges).0;
    var acked := AckedRanges(s, cumAck, ranges);
    AckKeepsInv(s, bufAvail, cumAck, ranges);
    AckShape(s, bufAvail, cumAck, ranges);
    AckedNormal(s, cumAck, ranges);
    StartNormal(s);
    forall n: nat
      ensures Covers(acked, n) <==> Covers(s.ackRanges, n) || n <= cumAck || Covers(ranges, n)
    {
      AckedCovers(s, cumAck, ranges, n);
    }
    KeptWithin(PlainAll(s.queue), acked);
    forall c | c in t.queue
      ensures !Covers(acked, c.seqNum)
    {
      PlainIn(t.queue, c);
    }
    ProbeAnswered(s, bufAvail, cumAck, ranges);
    StaleAck(t, bufAvail, cumAck, ranges);
  }

  lemma StartNormal(s: SendState)
    requires SendInv(s)
    ensures Normal(s.ackRanges)
  {
  }

  lemma PlainIn(cs: seq<Chunk>, c: Chunk)
    requires c in cs
    ensures Plain(c) in PlainAll(cs)
  {
    var k :| 0 <= k < |cs| && cs[k] == c;
    assert PlainAll(cs)[k] == Plain(c);
  }

  lemma ProbeAnswered(s: SendState, bufAvail: nat, cumAck: nat, ranges: seq<Range>)
    ensures bufAvail > 0 ==> !RangeAckStep(s, bufAvail, cumAck, ranges).0.probing
  {
    hide TrySendFrom, Kept, Removed, AckedRanges, NakAll, LostByNaks, MaxTsn, SumData, Updated, InFlightBytes, AnyNak;
    var removed := Removed(s.queue, AckedRanges(s, cumAck, ranges));
    TrySendEffect(Responded(s, Acked(s, cumAck, ranges), bufAvail, removed), 0);
  }

  // ---------------------------------------------------------------- timeouts

  /** A timeout that does not close the flow: a loss resets the window to one segment and backs the timer off. */
  lemma TimeoutResets(s: SendState)
    requires forall c :: c in s.queue && c.inFlight ==> c.sendCount <= 10
    ensures var (t, _, backOff) := AlarmStep(s);
      && (backOff <==> exists k :: 0 <= k < |s.queue| && s.queue[k].inFlight)
      && t.window.congWnd == (if backOff then 1460 else 4380) && t.window.accumulator == 0
      && t.window.ssthresh == (if backOff then Max(s.window.ssthresh, 1095) else Max(s.window.ssthresh, 3285))
  {
    hide TrySendFrom, InFlightCount, InFlightBytes, ExhaustedIndex, Grounded;
    ExhaustedMeans(s.queue);
    ExhaustedWithin(s.queue);
    SomeInFlight(s.queue);
    TrySendEffect(LoseFirst(s, |s.queue|).(window := TimedOut(s.window, InFlightCount(s.queue) > 0),
                                           dataPackets := 0), 0);
  }

  lemma {:induction false} SomeInFlight(cs: seq<Chunk>)
    ensures InFlightCount(cs) > 0 <==> exists k :: 0 <= k < |cs| && cs[k].inFlight
  {
    if cs != [] {
      var n := |cs| - 1;
      SomeInFlight(cs[..n]);
      if InFlightCount(cs[..n]) > 0 {
        var k :| 0 <= k < n && cs[..n][k].inFlight;
        assert cs[k].inFlight;
      }
      if k :| 0 <= k < |cs| && cs[k].inFlight {
        assert k < n ==> cs[..n][k].inFlight;
      }
    }
  }

  // ------------------------------------------------ what an ack does to the window

  lemma {:induction false} MaxTsnMeans(cs: seq<Chunk>)
    ensures forall c :: c in cs ==> c.tsn <= MaxTsn(cs)
    ensures MaxTsn(cs) > 0 ==> exists c :: c in cs && c.tsn == MaxTsn(cs)
  {
    if cs != [] {
      var n := |cs| - 1;
      assert cs == cs[..n] + [cs[n]];
      MaxTsnMeans(cs[..n]);
    }
  }

  /** The ack names the chunk, or an earlier ack did. */
  ghost predicate Named(s: SendState, cumAck: nat, ranges: seq<Range>, c: Chunk) {
    c.seqNum <= cumAck || Covers(ranges, c.seqNum) || Covers(s.ackRanges, c.seqNum)
  }

  /** The chunk stays in flight although one that was sent after it is named. */
  ghost predicate Skipped(s: SendState, cumAck: nat, ranges: seq<Range>, c: Chunk) {
    && c in s.queue && c.inFlight && !Named(s, cumAck, ranges, c)
    && exists d :: d in s.queue && Named(s, cumAck, ranges, d) && c.tsn < d.tsn
  }

  lemma NamedSplit(s: SendState, cumAck: nat, ranges: seq<Range>)
    requires SendInv(s)
    ensures var acked := AckedRanges(s, cumAck, ranges);
      && (forall c :: c in Kept(s.queue, acked) <==> c in s.queue && !Named(s, cumAck, ranges, c))
      && (forall c :: c in Removed(s.queue, acked) <==> c in s.queue && Named(s, cumAck, ranges, c))
  {
    hide Covers, AckedRanges, Kept, Removed;
    StartNormal(s);
    KeptWithin(s.queue, AckedRanges(s, cumAck, ranges));
    forall c: Chunk
      ensures Covers(AckedRanges(s, cumAck, ranges), c.seqNum) <==> Named(s, cumAck, ranges, c)
    {
      AckedCovers(s, cumAck, ranges, c.seqNum);
    }
  }

  lemma SkippedMeans(s: SendState, cumAck: nat, ranges: seq<Range>)
    requires SendInv(s)
    ensures var acked := AckedRanges(s, cumAck, ranges);
      forall c :: c in Kept(s.queue, acked) ==>
        (Overtaken(c, MaxTsn(Removed(s.queue, acked))) <==> Skipped(s, cumAck, ranges, c))
  {
    hide Covers, AckedRanges, Kept, Removed, MaxTsn, SendInv, Named;
    var acked := AckedRanges(s, cumAck, ranges);
    var removed := Removed(s.queue, acked);
    NamedSplit(s, cumAck, ranges);
    MaxTsnMeans(removed);
    forall c | c in Kept(s.queue, acked) && c.inFlight
      ensures Overtaken(c, MaxTsn(removed)) <==> Skipped(s, cumAck, ranges, c)
    {
      if Overtaken(c, MaxTsn(removed)) {
        var d :| d in removed && d.tsn == MaxTsn(removed);
        assert d in s.queue && Named(s, cumAck, ranges, d) && c.tsn < d.tsn;
      }
    }
  }

  lemma {:induction false} SomeLost(cs: seq<Chunk>, maxTsn: nat)
    ensures LostByNaks(cs, maxTsn) != [] <==> exists c :: c in cs && LostByNak(c, maxTsn)
  {
    if cs != [] {
      var n := |cs| - 1;
      assert cs == cs[..n] + [cs[n]];
      SomeLost(cs[..n], maxTsn);
    }
  }

  /**
   * An ack with news moves the congestion window by what happened: whether a chunk was skipped, whether one was
   * for the third time, how many bytes left the flight by being named, and how many were in flight before.
   */
  lemma AckMovesWindow(s: SendState, bufAvail: nat, cumAck: nat, ranges: seq<Range>)
    requires SendInv(s) && HasNews(s, bufAvail, cumAck, ranges)
    ensures s.inflightBytes >= 0
    ensures var t := RangeAckStep(s, bufAvail, cumAck, ranges).0;
      var skipped := exists c :: Skipped(s, cumAck, ranges, c);
      var lost := exists c :: Skipped(s, cumAck, ranges, c) && c.nakCount >= 2;
      var left := InFlightBytes(Kept(s.queue, AckedRanges(s, cumAck, ranges)));
      && left <= s.inflightBytes
      && t.window == Updated(s.config.tuning, s.window, lost, true, skipped, s.inflightBytes - left, s.inflightBytes)
  {
    hide SendInv, TrySendFrom, Kept, Removed, AckedRanges, MaxTsn, LostByNaks, SumData, Updated, InFlightBytes, Covers,
         Named, Skipped, HasNews, NakAll;
    var acked := AckedRanges(s, cumAck, ranges);
    var kept, removed := Kept(s.queue, acked), Removed(s.queue, acked);
    BytesAccounted(s);
    NewsMeans(s, bufAvail, cumAck, ranges);
    SplitByAck(s.queue, acked);
    NamedSplit(s, cumAck, ranges);
    SkippedMeans(s, cumAck, ranges);
    SomeLost(kept, MaxTsn(removed));
    assert forall c :: Skipped(s, cumAck, ranges, c) ==> c in kept by {
      SkippedKept(s, cumAck, ranges);
    }
    if exists c :: Skipped(s, cumAck, ranges, c) {
      var c :| Skipped(s, cumAck, ranges, c);
      var i :| 0 <= i < |kept| && kept[i] == c;
      assert Overtaken(kept[i], MaxTsn(removed));
    }
    TrySendEffect(Responded(s, Acked(s, cumAck, ranges), bufAvail, removed), 0);
  }

  lemma SkippedKept(s: SendState, cumAck: nat, ranges: seq<Range>)
    requires SendInv(s)
    ensures forall c :: Skipped(s, cumAck, ranges, c) ==> c in Kept(s.queue, AckedRanges(s, cumAck, ranges))
  {
    hide Kept, AckedRanges, Named, SendInv;
    NamedSplit(s, cumAck, ranges);
  }
}
