/**
 * The standalone congestion-control, flow-control and retransmit-timer
 * primitives of backend/flow_control.py.  The two window rules defined here
 * (growth on a new ACK, threshold after a loss) are the same ones the
 * client's Sender applies inline, and the Sender model reuses them.
 */
module Congestion {
  import opened Common

  /** The congestion state of the `CongestionControl` dataclass. */
  datatype Cc = Cc(cwnd: int, ssthresh: int, mss: int)

  /** Congestion-avoidance increment: max(1, int(mss * mss / max(1, cwnd))). */
  function AvoidanceStep(cwnd: int, mss: int): (r: int)
    ensures r >= 1
    ensures 1 <= mss <= cwnd ==> r <= mss
  {
    var q := mss * mss / Max(1, cwnd);
    assert 1 <= mss <= cwnd ==> q <= mss by {
      if 1 <= mss <= cwnd {
        QuotientBound(mss, cwnd);
      }
    }
    Max(1, q)
  }

  lemma QuotientBound(m: int, c: int)
    requires 1 <= m <= c
    ensures m * m / c <= m
  {
    assert m * m <= m * c;
    assert m * m / c <= m * c / c;
  }

  /** Slow-start threshold after a loss: max(cwnd // 2, mss). */
  function ReducedThreshold(cwnd: int, mss: int): (r: int)
    ensures r >= mss
    ensures r >= cwnd / 2
    ensures r == mss || r == cwnd / 2
  {
    Max(cwnd / 2, mss)
  }

  /** `on_ack`: slow start below ssthresh, congestion avoidance at or above it. */
  function AfterAck(c: Cc): (r: Cc)
  {
    if c.cwnd < c.ssthresh then c.(cwnd := c.cwnd + c.mss)
    else c.(cwnd := c.cwnd + AvoidanceStep(c.cwnd, c.mss))
  }

  /** `on_timeout`: multiplicative decrease to one segment. */
  function AfterTimeout(c: Cc): (r: Cc)
  {
    Cc(c.mss, ReducedThreshold(c.cwnd, c.mss), c.mss)
  }

  /** An ACK never shrinks the window and never touches ssthresh or mss. */
  lemma AckNeverShrinks(c: Cc)
    requires c.mss >= 0
    ensures AfterAck(c).cwnd >= c.cwnd
    ensures c.mss > 0 ==> AfterAck(c).cwnd > c.cwnd
    ensures AfterAck(c).ssthresh == c.ssthresh && AfterAck(c).mss == c.mss
  {
  }

  /** Slow start adds exactly one mss; avoidance adds between 1 and mss bytes. */
  lemma AckIncrement(c: Cc)
    requires 1 <= c.mss <= c.cwnd
    ensures c.cwnd < c.ssthresh ==> AfterAck(c).cwnd == c.cwnd + c.mss
    ensures c.cwnd >= c.ssthresh ==> c.cwnd + 1 <= AfterAck(c).cwnd <= c.cwnd + c.mss
  {
  }

  /** A timeout collapses cwnd to mss and sets ssthresh to half the old window, clamped at mss. */
  lemma TimeoutHalves(c: Cc)
    ensures AfterTimeout(c).cwnd == c.mss && AfterTimeout(c).mss == c.mss
    ensures AfterTimeout(c).ssthresh == if c.cwnd / 2 >= c.mss then c.cwnd / 2 else c.mss
  {
  }

  datatype Event = NewAck | Timeout

  function Step(c: Cc, e: Event): Cc
  {
    match e
    case NewAck => AfterAck(c)
    case Timeout => AfterTimeout(c)
  }

  /** The state after applying `events` in order, last event outermost. */
  function Run(c: Cc, events: seq<Event>): Cc
  {
    if events == [] then c else Step(Run(c, events[..|events| - 1]), events[|events| - 1])
  }

  /** The floor invariant: cwnd >= mss and ssthresh >= mss survive any mix of ACKs and timeouts. */
  lemma {:induction false} RunKeepsFloor(c: Cc, events: seq<Event>)
    requires c.mss >= 0 && c.cwnd >= c.mss && c.ssthresh >= c.mss
    ensures Run(c, events).mss == c.mss
    ensures Run(c, events).cwnd >= c.mss && Run(c, events).ssthresh >= c.mss
  {
    if events != [] {
      RunKeepsFloor(c, events[..|events| - 1]);
    }
  }

  function Acks(k: nat): (r: seq<Event>)
    ensures |r| == k
  {
    seq(k, _ => NewAck)
  }

  /**
   * Slow start from one segment: after k ACKs, each arriving while cwnd is
   * still below ssthresh, cwnd is exactly (k + 1) segments.
   */
  lemma {:induction false} SlowStartExact(mss: int, ssthresh: int, k: nat)
    requires mss > 0 && mss * k < ssthresh
    ensures Run(Cc(mss, ssthresh, mss), Acks(k)) == Cc(mss * (k + 1), ssthresh, mss)
  {
    if k > 0 {
      assert Acks(k)[..k - 1] == Acks(k - 1);
      assert mss * (k - 1) < mss * k;
      SlowStartExact(mss, ssthresh, k - 1);
      assert mss * k + mss == mss * (k + 1);
    }
  }

  /** The `CongestionControl` dataclass: fields updated in place by its two methods. */
  class CongestionControl {
    var cwnd: int
    var ssthresh: int
    var mss: int

    function State(): Cc
      reads this
    {
      Cc(cwnd, ssthresh, mss)
    }

    constructor (cwnd: int, ssthresh: int, mss: int)
      ensures State() == Cc(cwnd, ssthresh, mss)
    {
      this.cwnd := cwnd;
      this.ssthresh := ssthresh;
      this.mss := mss;
    }

    /** `acked_bytes` is accepted and ignored, as in the source. */
    method OnAck(ackedBytes: int)
      modifies this
      ensures State() == AfterAck(old(State()))
    {
      if cwnd < ssthresh {
        cwnd := cwnd + mss;
      } else {
        cwnd := cwnd + AvoidanceStep(cwnd, mss);
      }
    }

    method OnTimeout()
      modifies this
      ensures State() == AfterTimeout(old(State()))
    {
      ssthresh := Max(cwnd / 2, mss);
      cwnd := mss;
    }
  }

  /** `FlowControl`: a static advertised receive window. */
  class FlowControl {
    var rwnd: int

    constructor (recvWindowBytes: int)
      ensures rwnd == recvWindowBytes
    {
      rwnd := recvWindowBytes;
    }

    method Advertise() returns (w: int)
      ensures w == rwnd
    {
      w := rwnd;
    }
  }

  /** `RetransmitTimer`; the clock reading `time.time()` is the parameter `now`. */
  class RetransmitTimer {
    var timeout: real
    var startTime: Option<real>

    constructor (timeout: real)
      ensures this.timeout == timeout && startTime == None
    {
      this.timeout := timeout;
      startTime := None;
    }

    method Start(now: real)
      modifies this
      ensures startTime == Some(now) && timeout == old(timeout)
    {
      startTime := Some(now);
    }

    /** False while not started; otherwise true exactly when `timeout` has elapsed since the start. */
    method Expired(now: real) returns (b: bool)
      ensures startTime == None ==> !b
      ensures startTime.Some? ==> (b <==> now - startTime.value >= timeout)
    {
      if startTime == None {
        return false;
      }
      b := now - startTime.value >= timeout;
    }

    method Reset()
      modifies this
      ensures startTime == None && timeout == old(timeout)
    {
      startTime := None;
    }
  }
}
