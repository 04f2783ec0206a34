/** When a receiver acknowledges: which chunks are answered at once, and which wait for the alarm. */
module AckPolicy {
  import opened ByteBuffers
  import opened ChunkCodecs
  import opened ChunkHeap
  import opened Fragments
  import opened Protocol
  import opened Ranges
  import opened RecvFlows

  // -------------------------------------------------------- runs of a receiver

  datatype RecvEvent =
    | Arrived(m: UserData)
    | AckCalled  // by the delayed-ack alarm or a buffer probe
    | WasRead

  function Stepped(r: RecvState, e: RecvEvent): (RecvState, Option<Ack>) {
    match e
    case Arrived(m) => UserdataStep(r, m.frag, m.seqNum, m.data)
    case AckCalled => (AfterAck(r), Some(AckOf(r)))
    case WasRead => (ReadStep(r).0, None)
  }

  function After(events: seq<RecvEvent>): RecvState {
    if events == [] then EMPTY_RECV_STATE else Stepped(After(events[..|events| - 1]), events[|events| - 1]).0
  }

  /** What the receiver sends at an event that follows the others. */
  function Answer(events: seq<RecvEvent>, e: RecvEvent): Option<Ack> {
    Stepped(After(events), e).1
  }

  /** How many chunks have arrived since the last ack. */
  function SinceAck(events: seq<RecvEvent>): nat {
    if events == [] then 0
    else
      var before, e := events[..|events| - 1], events[|events| - 1];
      if Answer(before, e).Some? then 0 else SinceAck(before) + if e.Arrived? then 1 else 0
  }

  /** The free buffer in the last ack; none before the first. */
  function LastTold(events: seq<RecvEvent>): nat {
    if events == [] then 0
    else
      var before, e := events[..|events| - 1], events[|events| - 1];
      var answer := Answer(before, e);
      if answer.Some? then answer.value.bufAvail else LastTold(before)
  }

  predicate Got(events: seq<RecvEvent>, n: nat) {
    exists i :: 0 <= i < |events| && events[i].Arrived? && events[i].m.seqNum == n
  }

  /** Between two numbers that have arrived none is missing. */
  ghost predicate NoHole(events: seq<RecvEvent>) {
    forall a: nat, n: nat, b: nat :: a < n < b && Got(events, a) && Got(events, b) ==> Got(events, n)
  }

  // ------------------------------------------------------- the counters mean that

  ghost predicate PolicyInv(r: RecvState, events: seq<RecvEvent>) {
    && Sound(r)
    && (forall n: nat :: Covers(r.recvRanges, n) <==> Got(events, n))
    && r.rxPackets == SinceAck(events) <= 1
    && r.prevRwnd == LastTold(events) / 1024
    && (r.delackAlarm <==> SinceAck(events) == 1)
  }

  lemma GotSnoc(events: seq<RecvEvent>, e: RecvEvent)
    ensures forall n: nat :: Got(events + [e], n) <==> Got(events, n) || (e.Arrived? && e.m.seqNum == n)
  {
    var all := events + [e];
    forall n: nat
      ensures Got(all, n) <==> Got(events, n) || (e.Arrived? && e.m.seqNum == n)
    {
      if Got(events, n) {
        var i :| 0 <= i < |events| && events[i].Arrived? && events[i].m.seqNum == n;
        assert all[i] == events[i];
      }
      assert all[|events|] == e;
    }
  }

  lemma ChunkCovered(r: RecvState, m: UserData)
    requires Sound(r)
    ensures var t := UserdataStep(r, m.frag, m.seqNum, m.data).0;
      && Sound(t)
      && forall n: nat :: Covers(t.recvRanges, n) <==> Covers(r.recvRanges, n) || n == m.seqNum
  {
    hide Drained, Accepted, Sound, PendingRanges, Covers, Normal;
    UserdataSound(r, m.frag, m.seqNum, m.data);
    if !Covers(r.recvRanges, m.seqNum) {
      var counted := r.(rxPackets := r.rxPackets + 1);
      var c := NewChunk(m.frag, m.seqNum, m.data);
      CoreSuffices(r);
      CoreSuffices(counted);
      AcceptedSound(counted, c);
      DrainedKeepsRanges(Accepted(counted, c));
    }
  }

  /** The counters after a chunk: an ack clears them, its absence counts the chunk and sets the alarm. */
  lemma ChunkCounters(r: RecvState, m: UserData)
    ensures var (t, ack) := UserdataStep(r, m.frag, m.seqNum, m.data);
      if ack.Some? then t.rxPackets == 0 && t.prevRwnd == ack.value.bufAvail / 1024 && !t.delackAlarm
      else t.rxPackets == r.rxPackets + 1 <= 1 && t.prevRwnd == r.prevRwnd && t.delackAlarm
  {
    hide RunLength, Inserted, Added, Covers, PendingRanges, SumData;
  }

  lemma EventKeepsPolicy(r: RecvState, events: seq<RecvEvent>, e: RecvEvent)
    requires r == After(events) && PolicyInv(r, events)
    ensures PolicyInv(Stepped(r, e).0, events + [e])
  {
    hide After, Sound, Covers, Got, UserdataStep, PendingRanges, SumData, EndIndex, Available;
    var all := events + [e];
    assert all[..|events|] == events;
    GotSnoc(events, e);
    match e
    case Arrived(m) =>
      ChunkCovered(r, m);
      ChunkCounters(r, m);
    case AckCalled =>
      CoreSuffices(r);
      CoreSuffices(AfterAck(r));
    case WasRead =>
      ReadAgreement(r);
  }

  lemma {:induction false} RunKeepsPolicy(events: seq<RecvEvent>)
    ensures PolicyInv(After(events), events)
  {
    hide PolicyInv, Stepped;
    if events == [] {
      StartPolicy();
    } else {
      var before := events[..|events| - 1];
      RunKeepsPolicy(before);
      EventKeepsPolicy(After(before), before, events[|events| - 1]);
      assert before + [events[|events| - 1]] == events;
    }
  }

  lemma StartPolicy()
    ensures PolicyInv(EMPTY_RECV_STATE, [])
  {
  }

  lemma ContiguousOne(rs: seq<Range>)
    requires Normal(rs)
    ensures |rs| <= 1 <==> forall a: nat, n: nat, b: nat ::
      a < n < b && Covers(rs, a) && Covers(rs, b) ==> Covers(rs, n)
  {
    if |rs| > 1 {
      var a, n, b := rs[0].pos, rs[0].End(), rs[1].pos;
      assert rs[0].Contains(a) && rs[1].Contains(b);
      NotBetween(rs);
      assert Covers(rs, a) && Covers(rs, b) && !Covers(rs, n);
    } else {
      forall a: nat, n: nat, b: nat | a < n < b && Covers(rs, a) && Covers(rs, b)
        ensures Covers(rs, n)
      {
        assert rs[0].Contains(a) && rs[0].Contains(b);
        assert rs[0].Contains(n);
      }
    }
  }

  lemma NotBetween(rs: seq<Range>)
    requires Normal(rs) && |rs| > 1
    ensures rs[0].pos < rs[0].End() < rs[1].pos && !Covers(rs, rs[0].End())
  {
  }

  /** From any state: a chunk goes unanswered exactly when four things hold. */
  lemma StateAnswers(r: RecvState, m: UserData)
    requires Normal(r.recvRanges)
    ensures ReceiveAll(r, [m]).1 == [] <==>
      && !Covers(r.recvRanges, m.seqNum) && r.rxPackets == 0 && r.prevRwnd >= 2
      && forall a: nat, n: nat, b: nat ::
           a < n < b && Covers(r.recvRanges, a) && Covers(r.recvRanges, b) ==> Covers(r.recvRanges, n)
  {
    hide Drained, Accepted, PendingRanges, Covers, Normal;
    ContiguousOne(r.recvRanges);
    assert [m][1..] == [];
  }

  /** Once chunk one is in order, every chunk is answered at once while a number below a received one is missing. */
  lemma HoleAnswered(r: RecvState, m: UserData, n: nat, b: nat)
    requires Agreement(r) && r.lastOrdered >= 1
    requires 1 <= n < b && !Covers(r.recvRanges, n) && Covers(r.recvRanges, b)
    ensures ReceiveAll(r, [m]).1 != []
  {
    hide Covers, ReceiveAll, Counted;
    assert Covers(r.recvRanges, 1);
    StateAnswers(r, m);
  }

  /**
   * The policy, in every run: a chunk is answered at once unless it is new, the first since the last ack, that
   * ack told of at least two blocks, and no number is missing between two that had arrived.
   */
  lemma Unanswered(events: seq<RecvEvent>, m: UserData)
    ensures Answer(events, Arrived(m)).None? <==>
      && !Got(events, m.seqNum) && SinceAck(events) == 0 && LastTold(events) >= 2048 && NoHole(events)
  {
    hide After, Got, Drained, Accepted, PendingRanges, Covers, SinceAck, LastTold, Normal, Counted, Ascending;
    RunKeepsPolicy(events);
    var rs := After(events).recvRanges;
    ContiguousOne(rs);
    assert forall n: nat :: Got(events, n) <==> Covers(rs, n);
  }

  /** What is unanswered is never more than one chunk, and it has the alarm set that answers it. */
  lemma EveryOther(events: seq<RecvEvent>)
    ensures SinceAck(events) <= 1
    ensures After(events).delackAlarm <==> SinceAck(events) == 1
  {
    hide After, SinceAck;
    RunKeepsPolicy(events);
  }

  /** Of two chunks in a row at least one is answered at once, from any state. */
  lemma OneOfTwo(r: RecvState, m: UserData, n: UserData)
    ensures ReceiveAll(r, [m, n]).1 != []
  {
    hide Drained, Accepted, PendingRanges, Covers;
    var (u, ack) := UserdataStep(r, m.frag, m.seqNum, m.data);
    ChunkCounters(r, m);
    ChunkCounters(u, n);
    assert [m, n][1..] == [n] && [n][1..] == [];
  }

  /** A hole in front of everything that has arrived does not count: chunk 3 behind chunk 2 waits for the alarm. */
  lemma FrontHoleWaits(first: UserData, second: UserData)
    requires first.seqNum == 2 && second.seqNum == 3 && |first.data| <= 1460
    ensures Answer([], Arrived(first)).Some? && Answer([Arrived(first)], Arrived(second)).None?
    ensures !Got([Arrived(first)], 1)
  {
    hide UserdataStep, AckOf, Covers;
    var events := [Arrived(first)];
    assert events[..0] == [] && events[0] == Arrived(first);
    Unanswered([], first);
    Unanswered(events, second);
    FirstTold(first);
  }

  lemma FirstTold(m: UserData)
    requires m.seqNum == 2 && |m.data| <= 1460
    ensures UserdataStep(EMPTY_RECV_STATE, m.frag, m.seqNum, m.data).1.Some? ==>
      UserdataStep(EMPTY_RECV_STATE, m.frag, m.seqNum, m.data).1.value.bufAvail >= 2048
  {
    hide PendingRanges, Added;
    assert !Covers([], 2);
  }
}
