/** The congestion window of a send flow (Appendix A.2 of RFC 7016). */
module Congestion {
  import opened Arithmetic
  import opened Fragments
  import opened Ranges

  const INIT_CONG_WND := SMSS * 3
  const TIMEOUT_CONG_WND := SMSS
  const MAX_UINT := 0xFFFF_FFFF_FFFF_FFFF

  /** The two package switches fastgrow_allowed and is_time_critical. */
  datatype Tuning = Tuning(fastGrow: bool, timeCritical: bool)

  datatype Window = Window(congWnd: nat, ssthresh: nat, accumulator: nat)

  const OPEN_WINDOW := Window(INIT_CONG_WND, MAX_UINT, 0)

  function CeilQuarter(n: nat): nat {
    (n + 3) / 4
  }

  /** What a full threshold of acked bytes adds to the window. */
  function AdditiveGain(t: Tuning): nat {
    if t.fastGrow then 48 else 24
  }

  function Threshold(t: Tuning, w: Window): (threshold: nat)
    ensures threshold > 0
  {
    Min(Max(w.congWnd / 16, 64), if t.timeCritical && !t.fastGrow then 2400 else 4800)
  }

  /** Whether the window grows by a share of the acked bytes instead of by the accumulator. */
  predicate SlowStart(t: Tuning, w: Window) {
    w.congWnd < w.ssthresh && (t.fastGrow || t.timeCritical)
  }

  function Gained(gain: nat, total: nat, threshold: nat): nat
    requires threshold > 0
  {
    gain * (total / threshold)
  }

  /** The increase asked for by an ack that finds the window used up, before it is limited to a segment. */
  function Increase(t: Tuning, w: Window, ackedBytes: nat): nat {
    if SlowStart(t, w) then if t.fastGrow then ackedBytes else CeilQuarter(ackedBytes)
    else Gained(AdditiveGain(t), w.accumulator + ackedBytes, Threshold(t, w))
  }

  function LossWindow(t: Tuning, preAckOutstanding: nat): nat {
    Max(if t.timeCritical || (preAckOutstanding > 67200 && t.fastGrow)
        then preAckOutstanding * 7 / 8 else preAckOutstanding / 2, INIT_CONG_WND)
  }

  function Updated(t: Tuning, w: Window, anyLoss: bool, anyAck: bool, anyNak: bool,
                   ackedBytes: nat, preAckOutstanding: nat): Window {
    if anyLoss then Window(LossWindow(t, preAckOutstanding), LossWindow(t, preAckOutstanding), 0)
    else if anyAck && !anyNak && preAckOutstanding >= w.congWnd then
      w.(congWnd := Max(w.congWnd + Min(Increase(t, w, ackedBytes), SMSS), INIT_CONG_WND),
         accumulator := if SlowStart(t, w) then w.accumulator else (w.accumulator + ackedBytes) % Threshold(t, w))
    else w
  }

  function TimedOut(w: Window, anyLoss: bool): Window {
    var congWnd := if anyLoss then TIMEOUT_CONG_WND else INIT_CONG_WND;
    Window(congWnd, Max(w.ssthresh, congWnd * 3 / 4), 0)
  }

  /** Every change of the window keeps at least one segment in it. */
  lemma AtLeastOneSegment(t: Tuning, w: Window, anyLoss: bool, anyAck: bool, anyNak: bool, acked: nat, pre: nat)
    requires w.congWnd >= 1460
    ensures OPEN_WINDOW.congWnd >= 1460
    ensures Updated(t, w, anyLoss, anyAck, anyNak, acked, pre).congWnd >= 1460
    ensures TimedOut(w, anyLoss).congWnd >= 1460
  {
    if !anyLoss && anyAck && !anyNak && pre >= w.congWnd {
      assert Updated(t, w, anyLoss, anyAck, anyNak, acked, pre).congWnd >= w.congWnd;
    }
  }

  /** Without a loss the window never shrinks and grows by at most one segment or up to its start value. */
  lemma BoundedGrowth(t: Tuning, w: Window, anyAck: bool, anyNak: bool, acked: nat, pre: nat)
    ensures var v := Updated(t, w, false, anyAck, anyNak, acked, pre);
      w.congWnd <= v.congWnd <= Max(w.congWnd + 1460, 4380)
  {
  }

  /** A loss keeps seven eighths of the bytes in flight: always when time is critical, else only with fast growth. */
  predicate Gentle(t: Tuning, pre: nat) {
    t.timeCritical || (t.fastGrow && pre > 67200)
  }

  /**
   * After a loss the window is the new threshold and nothing is saved up. It is half, or seven eighths, of what
   * was in flight, but never below three segments, and so never above the larger of the two.
   */
  lemma LossShrinks(t: Tuning, w: Window, anyAck: bool, anyNak: bool, acked: nat, pre: nat)
    ensures var v := Updated(t, w, true, anyAck, anyNak, acked, pre);
      && v.congWnd == v.ssthresh && v.accumulator == 0
      && 4380 <= v.congWnd <= Max(pre, 4380)
      && (!Gentle(t, pre) ==> (v.congWnd > 4380 <==> pre >= 8762))
      && (!Gentle(t, pre) && v.congWnd > 4380 ==> pre - 1 <= 2 * v.congWnd <= pre)
      && (Gentle(t, pre) ==> (v.congWnd > 4380 <==> pre >= 5007))
      && (Gentle(t, pre) && v.congWnd > 4380 ==> 7 * pre - 7 <= 8 * v.congWnd <= 7 * pre)
  {
  }

  /** Without an ack, with a negative one, or with a window not used up, nothing changes. */
  lemma UnusedKeeps(t: Tuning, w: Window, anyAck: bool, anyNak: bool, acked: nat, pre: nat)
    requires !anyAck || anyNak || pre < w.congWnd
    ensures Updated(t, w, false, anyAck, anyNak, acked, pre) == w
  {
  }

  /** Below its threshold the window grows by the acked bytes, or by a quarter of them, up to a segment. */
  lemma SlowStartGrowth(t: Tuning, w: Window, acked: nat, pre: nat) returns (gain: nat)
    requires (t.fastGrow || t.timeCritical) && w.congWnd < w.ssthresh && w.congWnd <= pre
    ensures Updated(t, w, false, true, false, acked, pre) == w.(congWnd := Max(w.congWnd + gain, 4380))
    ensures gain <= 1460
    ensures t.fastGrow ==> if gain < 1460 then gain == acked else acked >= 1460
    ensures !t.fastGrow ==> if gain < 1460 then acked <= 4 * gain <= acked + 3 else acked >= 5837
  {
    gain := Min(if t.fastGrow then acked else CeilQuarter(acked), 1460);
  }

  /** A sixteenth of the window, but at least 64 bytes and at most 4800, or 2400 when only time is critical. */
  predicate IsThreshold(t: Tuning, congWnd: nat, threshold: nat) {
    var cap := if t.timeCritical && !t.fastGrow then 2400 else 4800;
    && 64 <= threshold <= cap
    && (64 < threshold < cap ==> 16 * threshold <= congWnd < 16 * threshold + 16)
    && (threshold == 64 ==> congWnd < 16 * 65)
    && (threshold == cap ==> congWnd >= 16 * cap)
  }

  /**
   * Otherwise every full threshold of acked bytes adds 24 bytes, 48 with fast growth, up to a segment at a time,
   * and no acked byte is dropped or counted twice: those of the thresholds and what is saved up make the total.
   */
  lemma AdditiveGrowth(t: Tuning, w: Window, acked: nat, pre: nat) returns (thresholds: nat, threshold: nat)
    requires !((t.fastGrow || t.timeCritical) && w.congWnd < w.ssthresh) && w.congWnd <= pre
    ensures var v := Updated(t, w, false, true, false, acked, pre);
      && IsThreshold(t, w.congWnd, threshold)
      && v.ssthresh == w.ssthresh && v.accumulator < threshold
      && thresholds * threshold + v.accumulator == w.accumulator + acked
      && v.congWnd == Max(w.congWnd + Min((if t.fastGrow then 48 else 24) * thresholds, 1460), 4380)
  {
    hide Threshold, IsThreshold;
    threshold := Threshold(t, w);
    ThresholdMeans(t, w);
    thresholds := QuotientAndRest(w.accumulator + acked, threshold);
  }

  lemma QuotientAndRest(total: nat, threshold: nat) returns (q: nat)
    requires threshold > 0
    ensures q == total / threshold && q * threshold + total % threshold == total && total % threshold < threshold
  {
    q := total / threshold;
  }

  lemma ThresholdMeans(t: Tuning, w: Window)
    ensures IsThreshold(t, w.congWnd, Threshold(t, w))
  {
  }

  lemma DrainTwice(gain: nat, total: nat, b: nat, threshold: nat)
    requires threshold > 0
    ensures (total % threshold + b) % threshold == (total + b) % threshold
    ensures Gained(gain, total, threshold) + Gained(gain, total % threshold + b, threshold)
      == Gained(gain, total + b, threshold)
  {
    var q, r := total / threshold, total % threshold;
    assert total == q * threshold + r;
    DivideShift(q, r + b, threshold);
    Distribute(1, q, (r + b) / threshold, gain);
  }

  /**
   * In additive increase acked bytes count the same in one ack or in two, as long as the window that the
   * first ack leaves has the same threshold.
   */
  lemma AccumulatorConserves(t: Tuning, w: Window, a: nat, b: nat, pre: nat, pre2: nat)
    requires !SlowStart(t, w) && pre >= w.congWnd
    ensures var v := Updated(t, w, false, true, false, a, pre);
      pre2 >= v.congWnd && !SlowStart(t, v) && Threshold(t, v) == Threshold(t, w) ==>
        && Updated(t, v, false, true, false, b, pre2).accumulator
             == Updated(t, w, false, true, false, a + b, pre).accumulator
        && Increase(t, w, a) + Increase(t, v, b) == Increase(t, w, a + b)
  {
    hide Gained, Threshold, SlowStart;
    DrainTwice(AdditiveGain(t), w.accumulator + a, b, Threshold(t, w));
    assert w.accumulator + a + b == w.accumulator + (a + b);
  }

  /** The additive-increase loop: it stops, with the remainder left and one gain per full threshold. */
  method DrainAccumulator(accumulator: nat, threshold: nat, gain: nat) returns (rest: nat, increase: nat)
    requires threshold > 0
    ensures rest == accumulator % threshold && increase == gain * (accumulator / threshold)
  {
    rest, increase := accumulator, 0;
    ghost var k := 0;
    while rest >= threshold
      invariant accumulator / threshold == k + rest / threshold
      invariant accumulator % threshold == rest % threshold && increase == gain * k
      decreases rest
    {
      DivideShift(1, rest - threshold, threshold);
      rest := rest - threshold;
      increase := increase + gain;
      k := k + 1;
    }
    assert rest / threshold == 0;
  }
}
