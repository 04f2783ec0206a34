/** The lossy, bounded, reordering queue of noisy_chan, as an instance of the channel of the protocol. */
module NoisyChannels {
  import opened ByteBuffers
  import opened ChunkCodecs
  import opened Packets
  import opened Protocol
  import opened RecvFlows

  /** Zero stands for "no limit" in the last two fields. */
  datatype Settings = Settings(loseRate: nat, disorder: bool, capacity: nat, maxPacketSize: nat)

  /** A queued packet with its number of arrival, which stands for its identity. */
  datatype Item = Item(id: nat, data: Bytes)

  datatype Noise = Noise(packets: seq<Item>, rxCount: nat, txCount: nat, dropCount: nat)

  const IDLE := Noise([], 0, 0, 0)

  predicate Drops(c: Settings, s: Noise, p: Bytes, loseRoll: nat) {
    || loseRoll < c.loseRate
    || (c.capacity > 0 && |s.packets| >= c.capacity)
    || (c.maxPacketSize > 0 && |p| > c.maxPacketSize)
  }

  predicate Disorders(c: Settings, s: Noise, disorderRoll: nat) {
    c.disorder && disorderRoll < 50 && |s.packets| > 0
  }

  /** The two rolls are the random numbers below one hundred. */
  function Taken(c: Settings, s: Noise, p: Bytes, loseRoll: nat, disorderRoll: nat): Noise {
    var counted := s.(rxCount := s.rxCount + 1);
    if Drops(c, s, p, loseRoll) then counted.(dropCount := s.dropCount + 1)
    else
      var item := Item(s.rxCount, p);
      var n := |s.packets|;
      if Disorders(c, s, disorderRoll) then
        counted.(packets := s.packets[..n - 1] + [item] + s.packets[n - 1..])
      else counted.(packets := s.packets + [item])
  }

  /** The front packet leaves; nothing happens on an empty queue. */
  function Emitted(s: Noise): (Noise, Option<Item>) {
    if s.packets == [] then (s, None)
    else (s.(packets := s.packets[1..], txCount := s.txCount + 1), Some(s.packets[0]))
  }

  class NoisyChan {
    const settings: Settings
    var packets: seq<Item>
    var rxCount: nat
    var txCount: nat
    var dropCount: nat

    ghost function Model(): Noise
      reads this
    {
      Noise(packets, rxCount, txCount, dropCount)
    }

    constructor (settings: Settings)
      ensures Model() == IDLE && this.settings == settings
    {
      this.settings := settings;
      packets, rxCount, txCount, dropCount := [], 0, 0, 0;
    }

    method RecvPacket(p: Bytes, loseRoll: nat, disorderRoll: nat)
      modifies this
      ensures Model() == Taken(settings, old(Model()), p, loseRoll, disorderRoll)
    {
      var item := Item(rxCount, p);
      rxCount := rxCount + 1;
      dropCount := dropCount + 1;
      if loseRoll < settings.loseRate {
        return;
      }
      if settings.capacity > 0 && |packets| >= settings.capacity {
        return;
      }
      if settings.maxPacketSize > 0 && |p| > settings.maxPacketSize {
        return;
      }
      dropCount := dropCount - 1;
      if settings.disorder && disorderRoll < 50 && |packets| > 0 {
        packets := packets[..|packets| - 1] + [item] + packets[|packets| - 1..];
      } else {
        packets := packets + [item];
      }
    }

    method SendPacket() returns (item: Option<Item>)
      modifies this
      ensures (Model(), item) == Emitted(old(Model()))
    {
      if packets == [] {
        return None;
      }
      item := Some(packets[0]);
      txCount := txCount + 1;
      packets := packets[1..];
    }
  }

  // --------------------------------------------------------------------- runs

  datatype NoiseEvent =
    | Arrives(packet: Bytes, loseRoll: nat, disorderRoll: nat)
    | Leaves

  /** The channel with everything it has been given and everything it has given on. */
  datatype NoiseHistory = NoiseHistory(state: Noise, arrived: seq<Bytes>, out: seq<Item>)

  function NoiseStep(c: Settings, h: NoiseHistory, e: NoiseEvent): NoiseHistory {
    match e
    case Arrives(p, loseRoll, disorderRoll) =>
      NoiseHistory(Taken(c, h.state, p, loseRoll, disorderRoll), h.arrived + [p], h.out)
    case Leaves =>
      var (s, item) := Emitted(h.state);
      NoiseHistory(s, h.arrived, if item.Some? then h.out + [item.value] else h.out)
  }

  function NoiseRun(c: Settings, events: seq<NoiseEvent>): NoiseHistory {
    if events == [] then NoiseHistory(IDLE, [], [])
    else NoiseStep(c, NoiseRun(c, events[..|events| - 1]), events[|events| - 1])
  }

  /** The order in which packets have left and will leave. */
  function Line(h: NoiseHistory): seq<Item> {
    h.out + h.state.packets
  }

  /** What comes through is what arrived under that number. */
  predicate Intact(line: seq<Item>, arrived: seq<Bytes>) {
    forall i :: 0 <= i < |line| ==> line[i].id < |arrived| && line[i].data == arrived[line[i].id]
  }

  predicate NoRepeats(line: seq<Item>) {
    forall i, j :: 0 <= i < j < |line| ==> line[i].id != line[j].id
  }

  /** No packet has two packets behind it that arrived before it. */
  predicate OvertakesOne(line: seq<Item>) {
    forall i, j, k :: 0 <= i < j < k < |line| ==> line[i].id < line[j].id || line[i].id < line[k].id
  }

  predicate InOrder(line: seq<Item>) {
    forall i, j :: 0 <= i < j < |line| ==> line[i].id < line[j].id
  }

  predicate NoiseInv(c: Settings, h: NoiseHistory) {
    && h.state.rxCount == |h.arrived|
    && h.state.txCount == |h.out|
    && h.state.rxCount == h.state.dropCount + h.state.txCount + |h.state.packets|
    && (c.capacity > 0 ==> |h.state.packets| <= c.capacity)
    && Intact(Line(h), h.arrived) && NoRepeats(Line(h)) && OvertakesOne(Line(h))
    && (!c.disorder ==> InOrder(Line(h)))
  }

  function Joined(line: seq<Item>, item: Item, at: nat): seq<Item>
    requires at <= |line|
  {
    line[..at] + [item] + line[at..]
  }

  lemma JoinedIntact(line: seq<Item>, item: Item, arrived: seq<Bytes>, at: nat)
    requires Intact(line, arrived) && NoRepeats(line) && item.id == |arrived| && at <= |line|
    ensures Intact(Joined(line, item, at), arrived + [item.data]) && NoRepeats(Joined(line, item, at))
  {
  }

  /** A new arrival goes to the end of the line or just before its last packet. */
  lemma JoinedOvertakes(line: seq<Item>, item: Item, arrived: seq<Bytes>, at: nat)
    requires Intact(line, arrived) && OvertakesOne(line) && item.id == |arrived|
    requires at <= |line| <= at + 1
    ensures OvertakesOne(Joined(line, item, at))
    ensures at == |line| && InOrder(line) ==> InOrder(Joined(line, item, at))
  {
    hide OvertakesOne;
    var joined := Joined(line, item, at);
    forall i, j, k | 0 <= i < j < k < |joined|
      ensures joined[i].id < joined[j].id || joined[i].id < joined[k].id
    {
      JoinedAt(line, item, at, i);
      JoinedAt(line, item, at, j);
      JoinedAt(line, item, at, k);
      if j != at && k != at {
        OvertakesThere(line, i, if j < at then j else j - 1, if k < at then k else k - 1);
      }
    }
    OvertakesFrom(joined);
  }

  lemma JoinedAt(line: seq<Item>, item: Item, at: nat, i: nat)
    requires at <= |line| && i <= |line|
    ensures Joined(line, item, at)[i] == if i < at then line[i] else if i == at then item else line[i - 1]
  {
  }

  lemma OvertakesThere(line: seq<Item>, i: nat, j: nat, k: nat)
    requires OvertakesOne(line) && i < j < k < |line|
    ensures line[i].id < line[j].id || line[i].id < line[k].id
  {
  }

  lemma OvertakesFrom(line: seq<Item>)
    requires forall i, j, k :: 0 <= i < j < k < |line| ==> line[i].id < line[j].id || line[i].id < line[k].id
    ensures OvertakesOne(line)
  {
  }

  lemma ArrivalKeeps(c: Settings, h: NoiseHistory, p: Bytes, loseRoll: nat, disorderRoll: nat)
    requires NoiseInv(c, h)
    ensures NoiseInv(c, NoiseStep(c, h, Arrives(p, loseRoll, disorderRoll)))
  {
    hide NoRepeats, OvertakesOne, InOrder;
    var t := NoiseStep(c, h, Arrives(p, loseRoll, disorderRoll));
    if !Drops(c, h.state, p, loseRoll) {
      var item := Item(h.state.rxCount, p);
      var line := Line(h);
      var at := if Disorders(c, h.state, disorderRoll) then |line| - 1 else |line|;
      JoinedIntact(line, item, h.arrived, at);
      JoinedOvertakes(line, item, h.arrived, at);
      assert Line(t) == Joined(line, item, at);
    }
  }

  lemma LeavingKeeps(c: Settings, h: NoiseHistory)
    requires NoiseInv(c, h)
    ensures NoiseInv(c, NoiseStep(c, h, Leaves))
  {
    if h.state.packets != [] {
      assert Line(NoiseStep(c, h, Leaves)) == Line(h);
    }
  }

  /**
   * In every run each arrived packet was dropped, has left or is queued; what comes through is intact,
   * comes once, and overtakes at most one earlier packet, none at all when disorder is off.
   */
  lemma {:induction false} NoiseRuns(c: Settings, events: seq<NoiseEvent>)
    ensures NoiseInv(c, NoiseRun(c, events))
  {
    if events != [] {
      hide NoiseInv, NoiseStep;
      var n := |events| - 1;
      NoiseRuns(c, events[..n]);
      match events[n]
      case Arrives(p, l, d) => ArrivalKeeps(c, NoiseRun(c, events[..n]), p, l, d);
      case Leaves => LeavingKeeps(c, NoiseRun(c, events[..n]));
    }
  }

  // --------------------------------------------------------- what the rolls do

  predicate Below(roll: nat, n: nat) {
    roll < n
  }

  lemma {:induction false} RollsBelow(n: nat)
    ensures |set roll: nat | roll < 100 && Below(roll, n)| == if n < 100 then n else 100
    decreases n
  {
    var rolls := set roll: nat | roll < 100 && Below(roll, n);
    if n == 0 {
      assert rolls == {};
    } else {
      var m := n - 1;
      var fewer := set roll: nat | roll < 100 && Below(roll, m);
      RollsBelow(n - 1);
      if n <= 100 {
        assert Below(n - 1, n) && n - 1 in rolls;
        assert rolls == fewer + {n - 1};
      } else {
        assert rolls == fewer;
      }
    }
  }

  /** Of the hundred rolls, those that lose a packet are as many as the rate says, if nothing else loses it. */
  lemma LoseRate(c: Settings, s: Noise, p: Bytes)
    requires c.capacity == 0 || |s.packets| < c.capacity
    requires c.maxPacketSize == 0 || |p| <= c.maxPacketSize
    ensures |set roll: nat | roll < 100 && Drops(c, s, p, roll)| == if c.loseRate < 100 then c.loseRate else 100
  {
    RollsBelow(c.loseRate);
    assert forall roll: nat :: Drops(c, s, p, roll) <==> Below(roll, c.loseRate);
    assert (set roll: nat | roll < 100 && Drops(c, s, p, roll))
        == set roll: nat | roll < 100 && Below(roll, c.loseRate);
  }

  /** A full queue loses every packet, and so it goes with every packet over the size limit. */
  lemma LimitsDrop(c: Settings, s: Noise, p: Bytes, loseRoll: nat, disorderRoll: nat)
    requires (0 < c.capacity <= |s.packets|) || (0 < c.maxPacketSize < |p|)
    ensures Taken(c, s, p, loseRoll, disorderRoll) == s.(rxCount := s.rxCount + 1, dropCount := s.dropCount + 1)
  {
  }

  /** The packet taken in stands in front of the last one waiting. */
  predicate Overtakes(c: Settings, s: Noise, p: Bytes, loseRoll: nat, disorderRoll: nat) {
    var packets := Taken(c, s, p, loseRoll, disorderRoll).packets;
    |packets| > 1 && packets[|packets| - 1] == s.packets[|s.packets| - 1] && packets[|packets| - 2].id == s.rxCount
  }

  /** With disorder on and packets waiting, half of the rolls let a new packet in front of the last one. */
  lemma DisorderRate(c: Settings, s: Noise, p: Bytes, loseRoll: nat)
    requires !Drops(c, s, p, loseRoll) && s.packets != [] && s.packets[|s.packets| - 1].id < s.rxCount
    ensures |set roll: nat | roll < 100 && Overtakes(c, s, p, loseRoll, roll)| == if c.disorder then 50 else 0
  {
    var n := if c.disorder then 50 else 0;
    RollsBelow(n);
    assert forall roll: nat :: Overtakes(c, s, p, loseRoll, roll) <==> Below(roll, n);
    assert (set roll: nat | roll < 100 && Overtakes(c, s, p, loseRoll, roll))
        == set roll: nat | roll < 100 && Below(roll, n);
  }

  // ----------------------------------------------- an instance of the channel

  function Queued(s: Noise): set<Bytes> {
    set i | 0 <= i < |s.packets| :: s.packets[i].data
  }

  lemma QueuedAfter(c: Settings, s: Noise, p: Bytes, loseRoll: nat, disorderRoll: nat)
    ensures forall d :: d in Queued(Taken(c, s, p, loseRoll, disorderRoll)) ==>
      d in Queued(s) || (d == p && !Drops(c, s, p, loseRoll))
    ensures forall d :: d in Queued(Emitted(s).0) ==> d in Queued(s)
    ensures Emitted(s).1.Some? ==> Emitted(s).1.value.data in Queued(s)
  {
    var t := Taken(c, s, p, loseRoll, disorderRoll);
    forall d | d in Queued(t)
      ensures d in Queued(s) || (d == p && !Drops(c, s, p, loseRoll))
    {
      var i :| 0 <= i < |t.packets| && t.packets[i].data == d;
      if t.packets[i] != Item(s.rxCount, p) || Drops(c, s, p, loseRoll) {
        assert t.packets[i] in s.packets;
      }
    }
  }

  /** A datagram that the network below can carry, or that the noisy channel drops for its size. */
  predicate Carriable(c: Settings, d: Bytes) {
    |d| <= MAX_DATAGRAM || 0 < c.maxPacketSize <= MAX_DATAGRAM
  }

  /** What a noisy channel does with a data packet is a move of the protocol's channel. */
  lemma NoiseCarriesData(link: Link, c: Settings, s: Noise, h: Header, m: UserData, loseRoll: nat, disorderRoll: nat)
    requires LinkOk(link) && HeaderOk(h) && Carriable(c, DataPacket(link, h, m))
    ensures CarriesData(link, Queued(s), [m], Queued(Taken(c, s, DataPacket(link, h, m), loseRoll, disorderRoll)))
    ensures CarriesData(link, Queued(s), [], Queued(Emitted(s).0))
  {
    hide DataPacket, Taken, Emitted, Queued;
    QueuedAfter(c, s, DataPacket(link, h, m), loseRoll, disorderRoll);
    assert [m][0] == m;
  }

  /** And so is what it does with an ack packet in the other direction. */
  lemma NoiseCarriesAcks(link: Link, c: Settings, s: Noise, h: Header, a: Ack, loseRoll: nat, disorderRoll: nat)
    requires LinkOk(link) && HeaderOk(h) && Carriable(c, AckPacket(link, h, a))
    ensures CarriesAcks(link, Queued(s), [a], Queued(Taken(c, s, AckPacket(link, h, a), loseRoll, disorderRoll)))
    ensures CarriesAcks(link, Queued(s), [], Queued(Emitted(s).0))
  {
    hide AckPacket, Taken, Emitted, Queued;
    QueuedAfter(c, s, AckPacket(link, h, a), loseRoll, disorderRoll);
    assert [a][0] == a;
  }
}
