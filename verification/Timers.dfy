/** Round-trip measurement and the retransmission timer of a session (section 3.5.2.2 of RFC 7016). */
module Timers {
  import opened ByteBuffers
  import opened Ranges

  // Durations are in nanoseconds.
  const MILLISECOND := 1_000_000
  const TICK := 4 * MILLISECOND
  const MAX_TICKS := 32767
  const INIT_MRTO := 250_000
  const INIT_ERTO := 3000 * MILLISECOND
  const MIN_ERTO := 250 * MILLISECOND
  const ERTO_CAP := 10_000 * MILLISECOND

  datatype TimerState = TimerState(tsEchoRx: nat, srtt: nat, rttvar: nat, mrto: nat, erto: nat)

  const FRESH_TIMERS := TimerState(0, 0, 0, INIT_MRTO, INIT_ERTO)

  function Ticks(now: nat, echo: nat): nat {
    (now + U16_LIMIT - echo) % U16_LIMIT
  }

  function Delta(a: nat, b: nat): nat {
    if a > b then a - b else b - a
  }

  function Sampled(s: TimerState, rtt: nat): TimerState {
    var (srtt, rttvar) :=
      if s.srtt != 0 then ((7 * s.srtt + rtt) / 8, (3 * s.rttvar + Delta(s.srtt, rtt)) / 4)
      else (rtt, rtt / 2);
    var mrto := srtt + 4 * rttvar + 200 * MILLISECOND;
    TimerState(s.tsEchoRx, srtt, rttvar, mrto, Max(mrto, MIN_ERTO))
  }

  /** A packet carried the echo; zero means that it carried none. */
  function Echoed(s: TimerState, now: nat, echo: nat): TimerState {
    if echo == 0 || echo == s.tsEchoRx then s
    else
      var t := s.(tsEchoRx := echo);
      if Ticks(now, echo) <= MAX_TICKS then Sampled(t, Ticks(now, echo) * TICK) else t
  }

  function BackedOff(s: TimerState): TimerState {
    s.(erto := Max(Min(s.erto * 14142 / 10000, ERTO_CAP), s.mrto))
  }

  datatype TimerEvent = Echo(now: nat, echo: nat) | Timeout

  function Occurred(s: TimerState, e: TimerEvent): TimerState {
    match e
    case Echo(now, echo) => Echoed(s, now % U16_LIMIT, echo % U16_LIMIT)
    case Timeout => BackedOff(s)
  }

  function AllOccurred(s: TimerState, events: seq<TimerEvent>): TimerState
    decreases |events|
  {
    if events == [] then s
    else Occurred(AllOccurred(s, events[..|events| - 1]), events[|events| - 1])
  }

  // ------------------------------------------------- how far a sample moves

  /**
   * A sample moves the round-trip time an eighth of the way to it, up to rounding, and never past it; the
   * variation moves a quarter of the way to the distance between sample and round-trip time.
   */
  lemma SampleMoves(s: TimerState, rtt: nat)
    requires s.srtt != 0
    ensures var t := Sampled(s, rtt);
      var d, e := Delta(s.srtt, rtt), Delta(t.srtt, rtt);
      && 8 * e <= 7 * d + 7 && 7 * d <= 8 * e + 7
      && Min(s.srtt, rtt) <= t.srtt <= Max(s.srtt, rtt)
    ensures var t := Sampled(s, rtt);
      var aim := Delta(s.srtt, rtt);
      var d, e := Delta(s.rttvar, aim), Delta(t.rttvar, aim);
      && 4 * e <= 3 * d + 3 && 3 * d <= 4 * e + 3
      && Min(s.rttvar, aim) <= t.rttvar <= Max(s.rttvar, aim)
  {
  }

  /** The first sample is taken as it is, with half of it for the variation. */
  lemma FirstSample(s: TimerState, rtt: nat)
    requires s.srtt == 0
    ensures var t := Sampled(s, rtt);
      t.srtt == rtt && 2 * t.rttvar <= rtt <= 2 * t.rttvar + 1
  {
  }

  /** From any sample on the timer is the estimate with four variations and 200 milliseconds, a timeout backs off. */
  lemma SampleSetsTimer(s: TimerState, rtt: nat)
    ensures var t := Sampled(s, rtt);
      && t.mrto == t.srtt + 4 * t.rttvar + 200_000_000
      && t.erto == Max(t.mrto, 250_000_000) && t.tsEchoRx == s.tsEchoRx
  {
  }

  /** A timeout multiplies the timer by 1.4142, unless that is above ten seconds or below what was measured. */
  lemma BackoffFactor(s: TimerState)
    ensures var t := BackedOff(s);
      && t == s.(erto := t.erto) && t.erto >= s.mrto
      && (t.erto > s.mrto ==> t.erto <= 10_000_000_000 && 10_000 * t.erto <= 14_142 * s.erto)
      && (t.erto < 10_000_000_000 ==> 14_142 * s.erto < 10_000 * t.erto + 10_000)
  {
  }

  /** An echo counts if it is there, new, and no older than 32767 ticks of four milliseconds. */
  lemma EchoSamples(s: TimerState, now: nat, echo: nat)
    requires now < U16_LIMIT && echo < U16_LIMIT
    ensures echo == 0 || echo == s.tsEchoRx ==> Echoed(s, now, echo) == s
    ensures echo != 0 && echo != s.tsEchoRx ==>
      var age := if now >= echo then now - echo else now + 65536 - echo;
      Echoed(s, now, echo) ==
        if age <= 32767 then Sampled(s.(tsEchoRx := echo), age * 4_000_000) else s.(tsEchoRx := echo)
  {
    hide Sampled;
    TicksByCases(now, echo);
  }

  /** Without an echo, timeouts wait three seconds, then 4.2, 6.0 and 8.5, and from then on ten. */
  lemma FreshBackoff()
    ensures FRESH_TIMERS.erto == 3_000_000_000 && BackedOffTimes(FRESH_TIMERS, 1).erto == 4_242_600_000
    ensures BackedOffTimes(FRESH_TIMERS, 2).erto == 5_999_884_920
    ensures BackedOffTimes(FRESH_TIMERS, 3).erto == 8_485_037_253
    ensures BackedOffTimes(FRESH_TIMERS, 4).erto == 10_000_000_000
  {
    assert BackedOffTimes(FRESH_TIMERS, 0) == FRESH_TIMERS;
    assert FRESH_TIMERS.mrto == 250_000;
  }

  function SampledTimes(s: TimerState, rtt: nat, k: nat): TimerState {
    if k == 0 then s else Sampled(SampledTimes(s, rtt, k - 1), rtt)
  }

  function Power(b: nat, k: nat): nat {
    if k == 0 then 1 else b * Power(b, k - 1)
  }

  /**
   * Equal samples draw the round-trip time to them: after k of them the distance is (7/8)^k of what it was, up
   * to seven nanoseconds.
   */
  lemma {:induction false} SamplesConverge(s: TimerState, rtt: nat, k: nat)
    ensures var d, e := Delta(s.srtt, rtt), Delta(SampledTimes(s, rtt, k).srtt, rtt);
      Power(8, k) * e <= Power(7, k) * d + 7 * (Power(8, k) - Power(7, k))
  {
    if k > 0 {
      hide Sampled;
      var t := SampledTimes(s, rtt, k - 1);
      var d, e, f := Delta(s.srtt, rtt), Delta(t.srtt, rtt), Delta(Sampled(t, rtt).srtt, rtt);
      SamplesConverge(s, rtt, k - 1);
      SampleNears(t, rtt);
      ConvergeStep(Power(8, k - 1), Power(7, k - 1), d, e, f);
    }
  }

  lemma ConvergeStep(p: nat, q: nat, d: nat, e: nat, f: nat)
    requires p * e <= q * d + 7 * (p - q) && 8 * f <= 7 * e + 7
    ensures 8 * p * f <= 7 * q * d + 7 * (8 * p - 7 * q)
  {
    ScaleUp(p, 8 * f, 7 * e + 7);
    assert p * (8 * f) == 8 * p * f;
    assert p * (7 * e + 7) == 7 * (p * e) + 7 * p;
    assert 7 * (q * d) == 7 * q * d;
  }

  lemma SampleNears(s: TimerState, rtt: nat)
    ensures 8 * Delta(Sampled(s, rtt).srtt, rtt) <= 7 * Delta(s.srtt, rtt) + 7
  {
    if s.srtt != 0 {
      SampleMoves(s, rtt);
    }
  }

  lemma ScaleUp(p: nat, a: nat, b: nat)
    requires a <= b
    ensures p * a <= p * b
  {
  }

  // ----------------------------------------------------------- over whole runs

  /** The sample an event may contribute is at most bound. */
  predicate SampleWithin(e: TimerEvent, bound: nat) {
    e.Echo? && Ticks(e.now % U16_LIMIT, e.echo % U16_LIMIT) <= MAX_TICKS ==>
      Ticks(e.now % U16_LIMIT, e.echo % U16_LIMIT) * TICK <= bound
  }

  predicate TimersWithin(s: TimerState, bound: nat) {
    && s.srtt <= bound && s.rttvar <= bound
    && MIN_ERTO <= s.erto && s.mrto <= s.erto <= Max(ERTO_CAP, s.mrto)
    && s.mrto <= Max(INIT_MRTO, 5 * bound + 200 * MILLISECOND)
  }

  lemma OccurredWithin(s: TimerState, e: TimerEvent, bound: nat)
    requires TimersWithin(s, bound) && SampleWithin(e, bound)
    ensures TimersWithin(Occurred(s, e), bound)
  {
    hide TimersWithin, Sampled, Ticks, BackedOff;
    match e
    case Echo(now, echo) =>
      var t := s.(tsEchoRx := echo % U16_LIMIT);
      EchoIgnored(s, echo % U16_LIMIT, bound);
      if Ticks(now % U16_LIMIT, echo % U16_LIMIT) * TICK <= bound {
        SampledWithin(t, Ticks(now % U16_LIMIT, echo % U16_LIMIT) * TICK, bound);
      }
    case Timeout =>
      BackoffWithin(s, bound);
  }

  lemma EchoIgnored(s: TimerState, echo: nat, bound: nat)
    requires TimersWithin(s, bound)
    ensures TimersWithin(s.(tsEchoRx := echo), bound)
  {
  }

  lemma SampledWithin(s: TimerState, rtt: nat, bound: nat)
    requires TimersWithin(s, bound) && rtt <= bound
    ensures TimersWithin(Sampled(s, rtt), bound)
  {
  }

  /** Over any mix of samples and timeouts the estimates stay within the largest admissible sample. */
  lemma {:induction false} TimersStayWithin(events: seq<TimerEvent>, bound: nat)
    requires forall i :: 0 <= i < |events| ==> SampleWithin(events[i], bound)
    ensures TimersWithin(AllOccurred(FRESH_TIMERS, events), bound)
  {
    if events != [] {
      TimersStayWithin(events[..|events| - 1], bound);
      OccurredWithin(AllOccurred(FRESH_TIMERS, events[..|events| - 1]), events[|events| - 1], bound);
    }
  }

  /** Whatever happens, no estimate exceeds the 32767 ticks that the code accepts. */
  lemma TimersBounded(events: seq<TimerEvent>)
    ensures TimersWithin(AllOccurred(FRESH_TIMERS, events), MAX_TICKS * TICK)
  {
    TimersStayWithin(events, MAX_TICKS * TICK);
  }

  /** A timeout never shortens the timer, and below the cap it lengthens it. */
  lemma BackoffLengthens(s: TimerState, bound: nat)
    requires TimersWithin(s, bound)
    ensures BackedOff(s).erto >= s.erto
    ensures s.erto < ERTO_CAP ==> BackedOff(s).erto > s.erto
  {
  }

  function BackedOffTimes(s: TimerState, k: nat): TimerState {
    if k == 0 then s else BackedOff(BackedOffTimes(s, k - 1))
  }

  lemma BackoffWithin(s: TimerState, bound: nat)
    requires TimersWithin(s, bound)
    ensures TimersWithin(BackedOff(s), bound)
    ensures BackedOff(s).erto >= Min(ERTO_CAP, s.erto + 100 * MILLISECOND)
  {
  }

  /** Timeouts in a row lengthen the timer by at least 100ms each until it reaches its cap. */
  lemma {:induction false} BackoffReachesCap(s: TimerState, bound: nat, k: nat)
    requires TimersWithin(s, bound)
    ensures TimersWithin(BackedOffTimes(s, k), bound)
    ensures BackedOffTimes(s, k).erto >= Min(ERTO_CAP, s.erto + k * (100 * MILLISECOND))
  {
    if k > 0 {
      BackoffReachesCap(s, bound, k - 1);
      BackoffWithin(BackedOffTimes(s, k - 1), bound);
    }
  }

  /** The 16-bit difference is the elapsed time exactly for up to 32767 ticks, wherever the clock wraps. */
  lemma TicksAcrossWrap(sent: nat, now: nat)
    requires sent <= now
    ensures Ticks(now % U16_LIMIT, sent % U16_LIMIT) == (now - sent) % U16_LIMIT
    ensures now - sent <= MAX_TICKS <==>
      Ticks(now % U16_LIMIT, sent % U16_LIMIT) <= MAX_TICKS && Ticks(now % U16_LIMIT, sent % U16_LIMIT) == now - sent
  {
  }

  lemma TicksByCases(now: nat, echo: nat)
    requires now < U16_LIMIT && echo < U16_LIMIT
    ensures Ticks(now, echo) == if now >= echo then now - echo else now + U16_LIMIT - echo
  {
  }

  class SessionTimers {
    var tsEchoRx: nat
    var srtt: nat
    var rttvar: nat
    var mrto: nat
    var erto: nat

    ghost function Model(): TimerState
      reads this
    {
      TimerState(tsEchoRx, srtt, rttvar, mrto, erto)
    }

    constructor ()
      ensures Model() == FRESH_TIMERS
    {
      tsEchoRx, srtt, rttvar, mrto, erto := 0, 0, 0, INIT_MRTO, INIT_ERTO;
    }

    /** The echo half of recv_packet_info, at clock reading now. */
    method RecvEcho(now: nat, echo: nat)
      requires now < U16_LIMIT && echo < U16_LIMIT
      modifies this
      ensures Model() == Echoed(old(Model()), now, echo)
    {
      if echo != 0 && echo != tsEchoRx {
        tsEchoRx := echo;
        TicksByCases(now, echo);
        var rttTicks := if now >= echo then now - echo else now + U16_LIMIT - echo;
        if rttTicks <= MAX_TICKS {
          var rtt := rttTicks * TICK;
          if srtt != 0 {
            var rttDelta := if srtt > rtt then srtt - rtt else rtt - srtt;
            rttvar := (3 * rttvar + rttDelta) / 4;
            srtt := (7 * srtt + rtt) / 8;
          } else {
            srtt := rtt;
            rttvar := rtt / 2;
          }
          mrto := srtt + 4 * rttvar + 200 * MILLISECOND;
          erto := Max(mrto, MIN_ERTO);
        }
      }
    }

    method BackOff()
      modifies this
      ensures Model() == BackedOff(old(Model()))
    {
      var backoff := erto * 14142 / 10000;
      var capped := Min(backoff, ERTO_CAP);
      erto := Max(capped, mrto);
    }
  }
}
