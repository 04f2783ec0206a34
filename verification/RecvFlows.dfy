/** The receiving half of a flow: de-duplication, reordering, reassembly and acknowledgements. */
module RecvFlows {
  import opened ByteBuffers
  import opened ChunkHeap
  import opened Fragments
  import opened Ranges

  const MAX_RECV_BUF_SIZE := 1024 * 1024

  datatype Ack = Ack(bufAvail: nat, cumAck: nat, ranges: seq<Range>)

  /** The fields of a receive flow, with the heap seen as a sorted list. */
  datatype RecvState = RecvState(
    ordered: seq<Chunk>,
    pending: seq<Chunk>,
    orderedBytes: int,
    pendingBytes: int,
    recvRanges: seq<Range>,
    rxPackets: nat,
    prevRwnd: nat,
    lastOrdered: nat,
    delackAlarm: bool)

  const EMPTY_RECV_STATE := RecvState([], [], 0, 0, [], 0, 0, 0, false)

  // ------------------------------------------------------------ specification

  function Available(s: RecvState): nat {
    if s.orderedBytes + s.pendingBytes >= MAX_RECV_BUF_SIZE then 0
    else MAX_RECV_BUF_SIZE - (s.orderedBytes + s.pendingBytes)
  }

  function Singles(cs: seq<Chunk>): seq<Range> {
    seq(|cs|, i requires 0 <= i < |cs| => Range(cs[i].seqNum, 1))
  }

  function PendingRanges(cs: seq<Chunk>): seq<Range> {
    AddedAll([], Singles(cs))
  }

  function AckOf(s: RecvState): Ack {
    Ack(Available(s), s.lastOrdered, PendingRanges(s.pending))
  }

  function AfterAck(s: RecvState): RecvState {
    s.(rxPackets := 0, prevRwnd := Available(s) / 1024, delackAlarm := false)
  }

  /** How many pending chunks continue the numbers after last without a hole. */
  function RunLength(cs: seq<Chunk>, last: nat): (k: nat)
    ensures k <= |cs|
  {
    if cs != [] && cs[0].seqNum == last + 1 then 1 + RunLength(cs[1..], last + 1) else 0
  }

  /** The byte counters equal the sums they stand for. */
  predicate Counted(s: RecvState) {
    s.orderedBytes == SumData(s.ordered) && s.pendingBytes == SumData(s.pending)
  }

  /** Moves the whole run in one step; the source pops and pushes back chunk by chunk. */
  function Drained(s: RecvState): RecvState {
    var k := RunLength(s.pending, s.lastOrdered);
    s.(ordered := s.ordered + s.pending[..k],
       pending := s.pending[k..],
       orderedBytes := s.orderedBytes + SumData(s.pending[..k]),
       pendingBytes := s.pendingBytes - SumData(s.pending[..k]),
       lastOrdered := s.lastOrdered + k)
  }

  function Accepted(s: RecvState, c: Chunk): RecvState {
    s.(recvRanges := Added(s.recvRanges, Range(c.seqNum, 1)),
       pending := Inserted(s.pending, c),
       pendingBytes := s.pendingBytes + |c.data|)
  }

  predicate AckAtOnce(s: RecvState) {
    s.rxPackets + 1 >= 2 || s.prevRwnd < 2 || |s.recvRanges| > 1
  }

  function UserdataStep(s: RecvState, frag: FragCtrl, seqNum: nat, data: Bytes): (RecvState, Option<Ack>) {
    var counted := s.(rxPackets := s.rxPackets + 1);
    if Covers(s.recvRanges, seqNum) then (AfterAck(counted), Some(AckOf(counted)))
    else
      var drained := Drained(Accepted(counted, NewChunk(frag, seqNum, data)));
      if AckAtOnce(s) then (AfterAck(drained), Some(AckOf(drained)))
      else (drained.(delackAlarm := true), None)
  }

  /** Some([]) is the nil slice that the source's recv takes for "nothing yet". */
  function ReadStep(s: RecvState): (RecvState, Option<Bytes>) {
    var e := EndIndex(s.ordered);
    if e == |s.ordered| then (s, None)
    else
      (s.(ordered := s.ordered[e + 1..], orderedBytes := s.orderedBytes - SumData(s.ordered[..e + 1])),
       Some(Join(s.ordered[..e + 1])))
  }

  // ------------------------------------------------------------------ lemmas

  lemma {:induction false} InsertedSum(cs: seq<Chunk>, c: Chunk)
    ensures SumData(Inserted(cs, c)) == SumData(cs) + |c.data|
  {
    if cs == [] {
      assert SumData([c]) == |c.data| + SumData([]);
    } else if c.seqNum < cs[0].seqNum {
      assert ([c] + cs)[1..] == cs;
    } else {
      InsertedSum(cs[1..], c);
      assert Inserted(cs, c)[1..] == Inserted(cs[1..], c);
    }
  }

  lemma SinglesCover(cs: seq<Chunk>, n: nat)
    ensures Covers(Singles(cs), n) <==> HasNumber(cs, n)
  {
    if Covers(Singles(cs), n) {
      var i :| 0 <= i < |cs| && Singles(cs)[i].Contains(n);
      assert cs[i].seqNum == n;
    }
    if HasNumber(cs, n) {
      var i :| 0 <= i < |cs| && cs[i].seqNum == n;
      assert Singles(cs)[i].Contains(n);
    }
  }

  lemma PendingRangesMeaning(cs: seq<Chunk>)
    ensures Normal(PendingRanges(cs))
    ensures forall n: nat :: Covers(PendingRanges(cs), n) <==> HasNumber(cs, n)
  {
    AddedAllMeaning([], Singles(cs));
    forall n: nat
      ensures Covers(PendingRanges(cs), n) <==> HasNumber(cs, n)
    {
      SinglesCover(cs, n);
    }
  }

  /** The heap's array order does not show in the ranges of an ack. */
  lemma PendingRangesOrderFree(a: seq<Chunk>, b: seq<Chunk>)
    requires multiset(a) == multiset(b)
    ensures PendingRanges(a) == PendingRanges(b)
  {
    SameChunks(a, b);
    forall n: nat
      ensures Covers(Singles(a), n) <==> Covers(Singles(b), n)
    {
      SinglesCover(a, n);
      SinglesCover(b, n);
    }
    AddingIgnoresOrder([], Singles(a), Singles(b));
  }

  lemma InsertedNumbers(cs: seq<Chunk>, c: Chunk)
    ensures forall n: nat :: HasNumber(Inserted(cs, c), n) <==> HasNumber(cs, n) || n == c.seqNum
  {
    var out := Inserted(cs, c);
    InsertedElements(cs, c);
    forall n: nat
      ensures HasNumber(out, n) <==> HasNumber(cs, n) || n == c.seqNum
    {
      if HasNumber(out, n) {
        var i :| 0 <= i < |out| && out[i].seqNum == n;
        assert out[i] in out;
      }
      if HasNumber(cs, n) {
        var i :| 0 <= i < |cs| && cs[i].seqNum == n;
        assert cs[i] in out;
      }
      assert c in out;
    }
  }

  lemma SplitNumbers(cs: seq<Chunk>, k: nat)
    requires k <= |cs|
    ensures forall n: nat :: HasNumber(cs, n) <==> HasNumber(cs[..k], n) || HasNumber(cs[k..], n)
  {
    forall n: nat
      ensures HasNumber(cs, n) <==> HasNumber(cs[..k], n) || HasNumber(cs[k..], n)
    {
      if HasNumber(cs, n) {
        var i :| 0 <= i < |cs| && cs[i].seqNum == n;
        assert if i < k then cs[..k][i] == cs[i] else cs[k..][i - k] == cs[i];
      }
    }
  }

  lemma {:induction false} RunNumbers(cs: seq<Chunk>, last: nat)
    requires Ascending(cs)
    ensures var k := RunLength(cs, last);
      && (forall i :: 0 <= i < k ==> cs[i].seqNum == last + 1 + i)
      && (k < |cs| ==> cs[k].seqNum != last + k + 1)
  {
    if RunLength(cs, last) > 0 {
      RunNumbers(cs[1..], last + 1);
    }
  }

  lemma RunCovers(cs: seq<Chunk>, last: nat)
    requires Ascending(cs)
    ensures forall n: nat :: HasNumber(cs[..RunLength(cs, last)], n) <==> last < n <= last + RunLength(cs, last)
  {
    RunNumbers(cs, last);
    var run := cs[..RunLength(cs, last)];
    forall n: nat | last < n <= last + |run|
      ensures HasNumber(run, n)
    {
      assert run[n - last - 1].seqNum == n;
    }
  }

  /** What the code relies on for every sequence number, zero included. */
  ghost predicate Sound(s: RecvState) {
    && Normal(s.recvRanges)
    && Counted(s)
    && Ascending(s.pending)
    && (forall n: nat :: HasNumber(s.pending, n) ==> Covers(s.recvRanges, n))
  }

  /** The range queue names exactly the ordered run and the pending chunks. */
  ghost predicate Indexed(s: RecvState) {
    forall n: nat :: Covers(s.recvRanges, n) <==> 1 <= n <= s.lastOrdered || HasNumber(s.pending, n)
  }

  predicate PendingAbove(s: RecvState, n: nat) {
    forall i :: 0 <= i < |s.pending| ==> s.pending[i].seqNum > n
  }

  /** The two indexes of a receive flow agree. */
  ghost predicate Agreement(s: RecvState) {
    Sound(s) && Indexed(s) && PendingAbove(s, s.lastOrdered + 1)
  }

  lemma AcceptedSound(s: RecvState, c: Chunk)
    requires Sound(s) && !Covers(s.recvRanges, c.seqNum)
    ensures Sound(Accepted(s, c))
    ensures forall n: nat :: Covers(Accepted(s, c).recvRanges, n) <==> Covers(s.recvRanges, n) || n == c.seqNum
    ensures forall n: nat :: HasNumber(Accepted(s, c).pending, n) <==> HasNumber(s.pending, n) || n == c.seqNum
  {
    AddedMeaning(s.recvRanges, Range(c.seqNum, 1));
    InsertedNumbers(s.pending, c);
    InsertedSum(s.pending, c);
    InsertedAscending(s.pending, c);
  }

  lemma DrainedCounted(s: RecvState)
    requires Counted(s)
    ensures Counted(Drained(s))
  {
    var k := RunLength(s.pending, s.lastOrdered);
    assert s.pending[..k] + s.pending[k..] == s.pending;
    SumDataConcat(s.pending[..k], s.pending[k..]);
    SumDataConcat(s.ordered, s.pending[..k]);
  }

  lemma DrainedSound(s: RecvState)
    requires Sound(s)
    ensures Sound(Drained(s))
  {
    DrainedCounted(s);
    SplitNumbers(s.pending, RunLength(s.pending, s.lastOrdered));
  }

  /** The state without the three fields that only decide when an ack is sent. */
  function Core(s: RecvState): RecvState {
    s.(rxPackets := 0, prevRwnd := 0, delackAlarm := false)
  }

  lemma CoreSuffices(s: RecvState)
    ensures Sound(Core(s)) <==> Sound(s)
    ensures Agreement(Core(s)) <==> Agreement(s)
  {
  }

  lemma UserdataCore(s: RecvState, frag: FragCtrl, seqNum: nat, data: Bytes)
    ensures Core(UserdataStep(s, frag, seqNum, data).0) ==
      if Covers(s.recvRanges, seqNum) then Core(s) else Drained(Accepted(Core(s), NewChunk(frag, seqNum, data)))
  {
  }

  lemma UserdataSound(s: RecvState, frag: FragCtrl, seqNum: nat, data: Bytes)
    requires Sound(s)
    ensures Sound(UserdataStep(s, frag, seqNum, data).0)
  {
    CoreSuffices(s);
    CoreSuffices(UserdataStep(s, frag, seqNum, data).0);
    UserdataCore(s, frag, seqNum, data);
    if !Covers(s.recvRanges, seqNum) {
      AcceptedSound(Core(s), NewChunk(frag, seqNum, data));
      DrainedSound(Accepted(Core(s), NewChunk(frag, seqNum, data)));
    }
  }

  lemma BeyondRun(cs: seq<Chunk>, last: nat)
    requires Ascending(cs) && (cs != [] ==> cs[0].seqNum > last)
    ensures var k := RunLength(cs, last);
      forall i :: k <= i < |cs| ==> cs[i].seqNum > last + k + 1
  {
    RunNumbers(cs, last);
    var k := RunLength(cs, last);
    assert k > 0 ==> cs[k - 1].seqNum == last + k;
    assert k < |cs| ==> cs[k].seqNum > last + k + 1;
  }

  lemma DrainedAgrees(s: RecvState)
    requires Sound(s) && Indexed(s) && PendingAbove(s, s.lastOrdered)
    ensures Agreement(Drained(s))
  {
    BeyondRun(s.pending, s.lastOrdered);
    DrainedSound(s);
    DrainedIndexed(s);
  }

  lemma DrainedIndexed(s: RecvState)
    requires Indexed(s) && Ascending(s.pending)
    ensures Indexed(Drained(s))
  {
    RunCovers(s.pending, s.lastOrdered);
    SplitNumbers(s.pending, RunLength(s.pending, s.lastOrdered));
  }

  lemma AcceptedAgrees(s: RecvState, c: Chunk)
    requires Agreement(s) && !Covers(s.recvRanges, c.seqNum) && c.seqNum >= 1
    ensures Agreement(Drained(Accepted(s, c)))
  {
    AcceptedSound(s, c);
    InsertedElements(s.pending, c);
    var accepted := Accepted(s, c);
    forall i | 0 <= i < |accepted.pending|
      ensures accepted.pending[i].seqNum > s.lastOrdered
    {
      assert accepted.pending[i] in accepted.pending;
    }
    DrainedAgrees(accepted);
  }

  /** On numbered chunks the agreement is kept; a chunk numbered zero is the only one that breaks it. */
  lemma UserdataAgreement(s: RecvState, frag: FragCtrl, seqNum: nat, data: Bytes)
    requires Agreement(s)
    ensures Agreement(UserdataStep(s, frag, seqNum, data).0) <==> seqNum >= 1
  {
    CoreSuffices(s);
    CoreSuffices(UserdataStep(s, frag, seqNum, data).0);
    UserdataCore(s, frag, seqNum, data);
    if !Covers(s.recvRanges, seqNum) {
      if seqNum >= 1 {
        AcceptedAgrees(Core(s), NewChunk(frag, seqNum, data));
      } else {
        ZeroGoesFirst(Core(s), NewChunk(frag, 0, data));
      }
    }
  }

  lemma ZeroGoesFirst(s: RecvState, c: Chunk)
    requires Sound(s) && c.seqNum == 0 && !Covers(s.recvRanges, 0)
    ensures Drained(Accepted(s, c)).pending == [c] + s.pending
  {
    assert s.pending != [] ==> HasNumber(s.pending, s.pending[0].seqNum);
    var pending := Inserted(s.pending, c);
    assert pending == [c] + s.pending;
    assert RunLength(pending, s.lastOrdered) == 0;
    assert pending[0..] == pending;
  }

  /** Once a chunk numbered zero waits, nothing is ever put in order again. */
  lemma ZeroBlocks(s: RecvState, frag: FragCtrl, seqNum: nat, data: Bytes)
    requires Sound(s) && s.pending != [] && s.pending[0].seqNum == 0
    ensures var t := UserdataStep(s, frag, seqNum, data).0;
      && t.pending != [] && t.pending[0].seqNum == 0
      && t.ordered == s.ordered && t.lastOrdered == s.lastOrdered
  {
    if !Covers(s.recvRanges, seqNum) {
      var c := NewChunk(frag, seqNum, data);
      assert seqNum != 0;
      var pending := Inserted(s.pending, c);
      assert pending[0] == s.pending[0] && RunLength(pending, s.lastOrdered) == 0;
      assert pending[0..] == pending && s.ordered + pending[..0] == s.ordered;
    }
  }

  lemma ReadAgreement(s: RecvState)
    requires Sound(s)
    ensures Sound(ReadStep(s).0)
    ensures Agreement(s) ==> Agreement(ReadStep(s).0)
  {
    var e := EndIndex(s.ordered);
    if e < |s.ordered| {
      SumDataConcat(s.ordered[..e + 1], s.ordered[e + 1..]);
      assert s.ordered[..e + 1] + s.ordered[e + 1..] == s.ordered;
    }
  }

  lemma PendingRangesAbove(cs: seq<Chunk>, n: nat)
    requires forall i :: 0 <= i < |cs| ==> cs[i].seqNum > n
    ensures Normal(PendingRanges(cs))
    ensures forall i :: 0 <= i < |PendingRanges(cs)| ==> PendingRanges(cs)[i].pos > n
  {
    var rs := PendingRanges(cs);
    PendingRangesMeaning(cs);
    forall i | 0 <= i < |rs|
      ensures rs[i].pos > n
    {
      assert rs[i].Contains(rs[i].pos);
      assert Covers(rs, rs[i].pos);
      var k :| 0 <= k < |cs| && cs[k].seqNum == rs[i].pos;
    }
  }

  function FirstRun(s: RecvState): seq<Range> {
    if s.lastOrdered == 0 then [] else [Range(1, s.lastOrdered)]
  }

  /** The ranges of an ack are the range queue without its first run. */
  lemma AckRangesMatch(s: RecvState)
    requires Agreement(s)
    ensures s.recvRanges == FirstRun(s) + AckOf(s).ranges
    ensures Normal(AckOf(s).ranges)
    ensures forall i :: 0 <= i < |AckOf(s).ranges| ==> AckOf(s).ranges[i].pos > s.lastOrdered + 1
  {
    var rs := PendingRanges(s.pending);
    PendingRangesMeaning(s.pending);
    PendingRangesAbove(s.pending, s.lastOrdered + 1);
    if s.lastOrdered == 0 {
      assert [] + rs == rs;
    } else {
      NormalCons(Range(1, s.lastOrdered), rs);
    }
    CanonicalForm(s.recvRanges, FirstRun(s) + rs);
  }

  /** The least pending chunk moves to the ordered buffer. */
  function Moved(s: RecvState): RecvState
    requires s.pending != []
  {
    var c := s.pending[0];
    s.(ordered := s.ordered + [c], pending := s.pending[1..],
       orderedBytes := s.orderedBytes + |c.data|, pendingBytes := s.pendingBytes - |c.data|,
       lastOrdered := s.lastOrdered + 1)
  }

  lemma MovedDrains(s: RecvState)
    requires s.pending != [] && s.pending[0].seqNum == s.lastOrdered + 1
    ensures Drained(Moved(s)) == Drained(s)
  {
    var c := s.pending[0];
    var k := RunLength(s.pending[1..], s.lastOrdered + 1);
    assert s.pending[..k + 1] == [c] + s.pending[1..][..k];
    assert s.pending[k + 1..] == s.pending[1..][k..];
    assert s.ordered + s.pending[..k + 1] == s.ordered + [c] + s.pending[1..][..k];
    assert s.pending[..k + 1][1..] == s.pending[1..][..k];
  }

  lemma MovedSound(s: RecvState)
    requires Sound(s) && s.pending != []
    ensures Sound(Moved(s)) && s.pendingBytes >= |s.pending[0].data|
  {
    SplitNumbers(s.pending, 1);
    SumDataConcat(s.ordered, [s.pending[0]]);
    assert SumData([s.pending[0]]) == |s.pending[0].data| + SumData([]);
  }

  lemma NothingToDrain(s: RecvState)
    requires s.pending == [] || s.pending[0].seqNum != s.lastOrdered + 1
    ensures Drained(s) == s
  {
    assert s.ordered + s.pending[..0] == s.ordered && s.pending[0..] == s.pending;
  }

  lemma PrefixSnoc(cs: seq<Chunk>, i: nat)
    requires i < |cs|
    ensures Join(cs[..i + 1]) == Join(cs[..i]) + cs[i].data
    ensures SumData(cs[..i + 1]) == SumData(cs[..i]) + |cs[i].data|
    decreases i
  {
    if i > 0 {
      PrefixSnoc(cs[1..], i - 1);
      assert cs[..i + 1][1..] == cs[1..][..i] && cs[..i][1..] == cs[1..][..i - 1];
    } else {
      assert cs[..1][1..] == [];
    }
  }

  lemma PrefixWithin(cs: seq<Chunk>, i: nat)
    requires i <= |cs|
    ensures SumData(cs[..i]) <= SumData(cs)
  {
    assert cs[..i] + cs[i..] == cs;
    SumDataConcat(cs[..i], cs[i..]);
  }

  // --------------------------------------------------------------- the class

  /** The loop of send_ack, over the heap's chunks in array order. */
  method BuildRanges(chunks: seq<Chunk>) returns (ranges: seq<Range>)
    ensures ranges == PendingRanges(chunks)
  {
    hide Added, Placed, Normal, Covers;
    var queue := new RangeQueue();
    EmptyIsNormal();
    assert Singles(chunks)[0..] == Singles(chunks);
    for i := 0 to |chunks|
      invariant fresh(queue) && Normal(queue.ranges)
      invariant AddedAll(queue.ranges, Singles(chunks)[i..]) == PendingRanges(chunks)
    {
      assert Singles(chunks)[i..][0] == Range(chunks[i].seqNum, 1);
      assert Singles(chunks)[i..][1..] == Singles(chunks)[i + 1..];
      AddedMeaning(queue.ranges, Range(chunks[i].seqNum, 1));
      queue.AddRange(MakeRange(chunks[i].seqNum, chunks[i].seqNum + 1));
    }
    ranges := queue.ranges;
  }

  class RecvFlow {
    const flowid: nat
    var orderedRecvBuf: seq<Chunk>
    const unorderedRecvBuf: DataChunkHeap
    var orderedRecvedBytes: nat
    var unorderedRecvBufBytes: nat
    const recvRanges: RangeQueue
    var rxDataPackets: nat
    var prevRwnd: nat
    var lastOrderedSeqnum: nat
    var delackAlarm: bool

    ghost function Model(): RecvState
      reads this, unorderedRecvBuf, recvRanges
    {
      RecvState(orderedRecvBuf, Sorted(unorderedRecvBuf.chunks), orderedRecvedBytes, unorderedRecvBufBytes,
                recvRanges.ranges, rxDataPackets, prevRwnd, lastOrderedSeqnum, delackAlarm)
    }

    ghost predicate Valid()
      reads this, unorderedRecvBuf, recvRanges
    {
      HeapOrdered(unorderedRecvBuf.chunks) && Sound(Model())
    }

    constructor (flowid: nat)
      ensures Valid() && Model() == EMPTY_RECV_STATE && this.flowid == flowid
      ensures fresh(unorderedRecvBuf) && fresh(recvRanges)
    {
      this.flowid := flowid;
      orderedRecvBuf := [];
      unorderedRecvBuf := new DataChunkHeap();
      orderedRecvedBytes, unorderedRecvBufBytes := 0, 0;
      recvRanges := new RangeQueue();
      rxDataPackets, prevRwnd, lastOrderedSeqnum, delackAlarm := 0, 0, 0, false;
    }

    function AvailableBuffers(): nat
      reads this
    {
      var totalOccupied := orderedRecvedBytes + unorderedRecvBufBytes;
      if totalOccupied >= MAX_RECV_BUF_SIZE then 0 else MAX_RECV_BUF_SIZE - totalOccupied
    }

    method SendAck() returns (ack: Ack)
      requires Valid()
      modifies this
      ensures Valid() && Model() == AfterAck(old(Model())) && ack == AckOf(old(Model()))
    {
      hide Sorted, HeapOrdered, Sound, PendingRanges;
      CoreSuffices(Model());
      var ranges := BuildRanges(unorderedRecvBuf.chunks);
      SortedMultiset(unorderedRecvBuf.chunks);
      PendingRangesOrderFree(unorderedRecvBuf.chunks, Sorted(unorderedRecvBuf.chunks));
      rxDataPackets := 0;
      prevRwnd := AvailableBuffers() / 1024;
      delackAlarm := false;
      CoreSuffices(Model());
      ack := Ack(AvailableBuffers(), lastOrderedSeqnum, ranges);
    }

    method OnBufferProbe() returns (ack: Ack)
      requires Valid()
      modifies this
      ensures Valid() && Model() == AfterAck(old(Model())) && ack == AckOf(old(Model()))
    {
      ack := SendAck();
    }

    /** One pass of the ordering loop: pop the least chunk, and push it back when it comes too early. */
    method OrderOne() returns (inOrder: bool)
      requires Valid() && unorderedRecvBuf.chunks != []
      modifies this`orderedRecvBuf, this`orderedRecvedBytes, this`unorderedRecvBufBytes,
               this`lastOrderedSeqnum, unorderedRecvBuf
      ensures Valid() && old(Model()).pending != []
      ensures inOrder <==> old(Model().pending[0].seqNum) == old(lastOrderedSeqnum) + 1
      ensures Model() == if inOrder then Moved(old(Model())) else old(Model())
      ensures inOrder ==> |unorderedRecvBuf.chunks| < |old(unorderedRecvBuf.chunks)|
    {
      ghost var before, model := unorderedRecvBuf.chunks, Model();
      var oldestChunk := unorderedRecvBuf.Pop();
      PopSorted(before, unorderedRecvBuf.chunks, oldestChunk);
      assert model.pending[1..] == Sorted(unorderedRecvBuf.chunks);
      inOrder := oldestChunk.seqNum == lastOrderedSeqnum + 1;
      if inOrder {
        MovedSound(model);
        orderedRecvBuf := orderedRecvBuf + [oldestChunk];
        orderedRecvedBytes := orderedRecvedBytes + |oldestChunk.data|;
        unorderedRecvBufBytes := unorderedRecvBufBytes - |oldestChunk.data|;
        lastOrderedSeqnum := lastOrderedSeqnum + 1;
        assert |multiset(before)| == |multiset(unorderedRecvBuf.chunks)| + 1;
      } else {
        unorderedRecvBuf.Push(oldestChunk);
        SameSorted(unorderedRecvBuf.chunks, before);
      }
    }

    method OrderChunks()
      requires Valid()
      modifies this`orderedRecvBuf, this`orderedRecvedBytes, this`unorderedRecvBufBytes,
               this`lastOrderedSeqnum, unorderedRecvBuf
      ensures Valid() && Model() == Drained(old(Model()))
    {
      while |unorderedRecvBuf.chunks| > 0
        invariant Valid() && Drained(Model()) == Drained(old(Model()))
        decreases |unorderedRecvBuf.chunks|
      {
        ghost var model := Model();
        var inOrder := OrderOne();
        if !inOrder {
          break;
        }
        MovedDrains(model);
      }
      NothingToDrain(Model());
    }

    /** A chunk seen for the first time enters the range queue and the heap. */
    method Accept(chunk: Chunk)
      requires Valid() && !Covers(recvRanges.ranges, chunk.seqNum)
      modifies this`unorderedRecvBufBytes, unorderedRecvBuf, recvRanges
      ensures Valid() && Model() == Accepted(old(Model()), chunk)
    {
      AcceptedSound(Model(), chunk);
      ghost var before := unorderedRecvBuf.chunks;
      recvRanges.AddRange(MakeRange(chunk.seqNum, chunk.seqNum + 1));
      unorderedRecvBuf.Push(chunk);
      unorderedRecvBufBytes := unorderedRecvBufBytes + |chunk.data|;
      PushSorted(before, unorderedRecvBuf.chunks, chunk);
    }

    method CountPacket()
      requires Valid()
      modifies this`rxDataPackets
      ensures Valid() && Model() == old(Model()).(rxPackets := old(rxDataPackets) + 1)
    {
      CoreSuffices(Model());
      rxDataPackets := rxDataPackets + 1;
      CoreSuffices(Model());
    }

    method DelayAck()
      requires Valid()
      modifies this`delackAlarm
      ensures Valid() && Model() == old(Model()).(delackAlarm := true)
    {
      CoreSuffices(Model());
      if !delackAlarm {
        delackAlarm := true;
      }
      CoreSuffices(Model());
    }

    /** The part of on_userdata behind the duplicate check. */
    method OnNewChunk(chunk: Chunk, ackNow: bool) returns (ack: Option<Ack>)
      requires Valid() && !Covers(recvRanges.ranges, chunk.seqNum)
      modifies this, unorderedRecvBuf, recvRanges
      ensures Valid()
      ensures var drained := Drained(Accepted(old(Model()), chunk));
        (Model(), ack) == if ackNow then (AfterAck(drained), Some(AckOf(drained)))
                          else (drained.(delackAlarm := true), None)
    {
      Accept(chunk);
      OrderChunks();
      if ackNow {
        var a := SendAck();
        return Some(a);
      } else {
        DelayAck();
        return None;
      }
    }

    method OnUserdata(frag: FragCtrl, sequenceNumber: nat, data: Bytes) returns (ack: Option<Ack>)
      requires Valid()
      modifies this, unorderedRecvBuf, recvRanges
      ensures Valid()
      ensures (Model(), ack) == UserdataStep(old(Model()), frag, sequenceNumber, data)
    {
      ghost var model := Model();
      CountPacket();
      var duplicate := recvRanges.Contain(sequenceNumber);
      if duplicate {
        var a := SendAck();
        ack := Some(a);
        assert (Model(), ack) == UserdataStep(model, frag, sequenceNumber, data);
        return;
      }
      var ackNow := rxDataPackets >= 2 || prevRwnd < 2 || |recvRanges.ranges| > 1;
      ack := OnNewChunk(NewChunk(frag, sequenceNumber, data), ackNow);
    }

    /** The first loop of read_message. */
    method FindEnd() returns (end: nat)
      ensures end == EndIndex(orderedRecvBuf)
    {
      end := 0;
      while end < |orderedRecvBuf| && !EndsMessage(orderedRecvBuf[end])
        invariant end <= |orderedRecvBuf|
        invariant forall k :: 0 <= k < end ==> !EndsMessage(orderedRecvBuf[k])
      {
        end := end + 1;
      }
    }

    method ReadMessage() returns (msg: Option<Bytes>)
      requires Valid()
      modifies this`orderedRecvBuf, this`orderedRecvedBytes
      ensures Valid()
      ensures (Model(), msg) == ReadStep(old(Model()))
    {
      ghost var model := Model();
      ReadAgreement(model);
      var end := FindEnd();
      if end == |orderedRecvBuf| {
        return None;
      }
      ghost var cs := orderedRecvBuf;
      var data := [];
      var reachEnd := false;
      var i := 0;
      while orderedRecvBuf != [] && !reachEnd
        invariant 0 <= i <= end + 1 <= |cs| && orderedRecvBuf == cs[i..] && reachEnd == (i == end + 1)
        invariant data == Join(cs[..i]) && orderedRecvedBytes == model.orderedBytes - SumData(cs[..i])
        invariant Model() == model.(ordered := orderedRecvBuf, orderedBytes := orderedRecvedBytes)
        decreases |orderedRecvBuf|
      {
        PrefixSnoc(cs, i);
        PrefixWithin(cs, i + 1);
        data := data + orderedRecvBuf[0].data;
        reachEnd := i == end;
        orderedRecvedBytes := orderedRecvedBytes - |orderedRecvBuf[0].data|;
        orderedRecvBuf := orderedRecvBuf[1..];
        i := i + 1;
      }
      return Some(data);
    }
  }
}
