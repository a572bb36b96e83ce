/**
 * The transport sender of client_tcp.py (`Sender`): segmentation of
 * application writes into an outstanding buffer keyed by byte offset,
 * window-gated transmission, cumulative/duplicate ACK processing with fast
 * retransmit, and the retransmission-timeout reaction.
 *
 * The socket is not modelled; each transmission attempt is decided by a
 * `Link` parameter and the transmitted frames are returned in order.  The
 * clock `time.time()` is the parameter `now`.  The retransmission thread is
 * the boolean `timerAlive`; the body it runs after its sleep is `OnTimerExpiry`.
 */
module TcpSender {
  import opened Common
  import Congestion

  const MSS: int := 512
  const INIT_CWND: int := 1 * MSS
  const INIT_SSTHRESH: int := 8 * MSS
  const RECV_RWND: int := 32 * MSS

  type Name = string

  /** The `payload_type` of a write: a chat message or a file chunk. */
  datatype Kind = Msg | FileChunk

  /** Addressing stored with every segment: type, `to`, `room` and the optional chunk-id meta. */
  datatype Route = Route(kind: Kind, to: Option<Name>, room: Option<Name>, meta: Option<nat>)

  /** An outstanding-buffer entry. */
  datatype Segment = Segment(payload: Bytes, route: Route, sent: bool, sentTime: Option<real>)

  /** The frame `_try_send` hands to `send_msg` (the payload before base64). */
  datatype Transmission = Transmission(kind: Kind, from: Name, to: Option<Name>, room: Option<Name>, offset: int, payload: Bytes)

  /**
   * How the connection answers `send_msg` during one call: `Healthy` accepts
   * every frame, `BreaksAfter(n)` accepts n more frames and fails the next.
   */
  datatype Link = Healthy | BreaksAfter(n: nat)

  function Accepted(l: Link): Link
  {
    match l
    case Healthy => Healthy
    case BreaksAfter(n) => if n == 0 then l else BreaksAfter(n - 1)
  }

  datatype SenderState = SenderState(
    nextSeq: int,
    sendBase: int,
    buffer: map<int, Segment>,
    cwnd: int,
    ssthresh: int,
    dupAcks: map<int, nat>,
    rwnd: int,
    timerAlive: bool)

  /** State after `__init__`. */
  function Initial(): SenderState
  {
    SenderState(1, 1, map[], INIT_CWND, INIT_SSTHRESH, map[], RECV_RWND, false)
  }

  /** The sender's standing invariant: buffered offsets lie below next_seq, windows stay at least one MSS. */
  ghost predicate Inv(s: SenderState)
  {
    && (forall k :: k in s.buffer ==> k < s.nextSeq)
    && s.cwnd >= MSS
    && s.ssthresh >= MSS
  }

  // ---------------------------------------------------------------------
  // Ascending order of the buffer's offsets (`sorted(self.buffer.keys())`)
  // ---------------------------------------------------------------------

  lemma {:induction false} Minimum(s: set<int>) returns (m: int)
    requires s != {}
    ensures m in s && forall x :: x in s ==> m <= x
    decreases |s|
  {
    var x := Element(s);
    if s - {x} == {} {
      m := x;
      forall y | y in s
        ensures m <= y
      {
        assert y !in s - {x};
      }
    } else {
      var m' := Minimum(s - {x});
      m := if m' < x then m' else x;
      forall y | y in s
        ensures m <= y
      {
        if y != x {
          assert y in s - {x};
        }
      }
    }
  }

  lemma HasMinimum(s: set<int>)
    requires s != {}
    ensures exists m :: m in s && forall x :: x in s ==> m <= x
  {
    var m := Minimum(s);
  }

  function MinKey(s: set<int>): (m: int)
    requires s != {}
    ensures m in s && forall x :: x in s ==> m <= x
  {
    HasMinimum(s);
    var m :| m in s && forall x :: x in s ==> m <= x;
    m
  }

  /** The elements of `s` in strictly ascending order. */
  function Ascending(s: set<int>): (r: seq<int>)
    ensures |r| == |s|
    ensures forall k :: k in r <==> k in s
    ensures forall i, j :: 0 <= i < j < |r| ==> r[i] < r[j]
    decreases |s|
  {
    if s == {} then [] else [MinKey(s)] + Ascending(s - {MinKey(s)})
  }

  // ---------------------------------------------------------------------
  // Segmentation (`_enqueue_and_try_send`, client_tcp.py:127-135)
  // ---------------------------------------------------------------------

  /**
   * The segments one write adds: the payload cut into MSS-sized pieces from
   * the front, each stored unsent under the offset of its first byte.
   */
  function Layout(payload: Bytes, start: int, route: Route): map<int, Segment>
    decreases |payload|
  {
    if payload == [] then map[]
    else
      var c := Min(MSS, |payload|);
      Layout(payload[c..], start + c, route)[start := Segment(payload[..c], route, false, None)]
  }

  function Enqueued(s: SenderState, payload: Bytes, route: Route): SenderState
  {
    s.(buffer := s.buffer + Layout(payload, s.nextSeq, route), nextSeq := s.nextSeq + |payload|)
  }

  /** Payloads of a buffer concatenated in ascending offset order. */
  function InOffsetOrder(m: map<int, Segment>): Bytes
    decreases |m|
  {
    if m == map[] then [] else
      var k := MinKey(m.Keys);
      m[k].payload + InOffsetOrder(m - {k})
  }

  /**
   * Every segment of a write lies inside the write's byte range, is
   * non-empty, at most one MSS, unsent and carries the write's addressing;
   * the write's first byte always starts a segment.
   */
  lemma {:induction false} LayoutSegments(payload: Bytes, start: int, route: Route)
    ensures forall k :: k in Layout(payload, start, route) ==>
      && start <= k < start + |payload|
      && 0 < |Layout(payload, start, route)[k].payload| <= MSS
      && !Layout(payload, start, route)[k].sent
      && Layout(payload, start, route)[k].route == route
    ensures payload == [] <==> Layout(payload, start, route) == map[]
    ensures payload != [] ==> start in Layout(payload, start, route)
    decreases |payload|
  {
    if payload != [] {
      var c := Min(MSS, |payload|);
      LayoutSegments(payload[c..], start + c, route);
      assert start in Layout(payload, start, route);
    }
  }

  /**
   * Each segment of a write is keyed by the offset of its first byte: the
   * segment under offset k holds exactly the payload bytes from k on.
   */
  lemma LayoutKeyedByOffset(payload: Bytes, start: int, route: Route)
    ensures forall k :: k in Layout(payload, start, route) ==>
      && start <= k
      && k - start + |Layout(payload, start, route)[k].payload| <= |payload|
      && Layout(payload, start, route)[k].payload
           == payload[k - start .. k - start + |Layout(payload, start, route)[k].payload|]
  {
    forall k | k in Layout(payload, start, route)
      ensures start <= k
      ensures k - start + |Layout(payload, start, route)[k].payload| <= |payload|
      ensures Layout(payload, start, route)[k].payload
           == payload[k - start .. k - start + |Layout(payload, start, route)[k].payload|]
    {
      SegmentIsSlice(payload, start, route, k);
    }
  }

  /** The segment stored under offset k is the payload slice starting at k - start. */
  lemma {:induction false} SegmentIsSlice(payload: Bytes, start: int, route: Route, k: int)
    requires k in Layout(payload, start, route)
    ensures start <= k
    ensures k - start + |Layout(payload, start, route)[k].payload| <= |payload|
    ensures Layout(payload, start, route)[k].payload
         == payload[k - start .. k - start + |Layout(payload, start, route)[k].payload|]
    decreases |payload|
  {
    var c := Min(MSS, |payload|);
    var rest := Layout(payload[c..], start + c, route);
    assert Layout(payload, start, route) == rest[start := Segment(payload[..c], route, false, None)];
    if k != start {
      SegmentIsSlice(payload[c..], start + c, route, k);
      SliceOfSuffix(payload, c, k - start - c, k - start - c + |rest[k].payload|);
    }
  }

  /** A slice of a suffix is the slice of the whole shifted by the suffix's start. */
  lemma SliceOfSuffix(s: Bytes, c: nat, i: nat, j: nat)
    requires c <= |s| && i <= j <= |s| - c
    ensures s[c..][i..j] == s[c + i .. c + j]
  {
  }

  /** Concatenating a write's segments in offset order gives back the payload. */
  lemma {:induction false} LayoutReassembles(payload: Bytes, start: int, route: Route)
    ensures InOffsetOrder(Layout(payload, start, route)) == payload
    decreases |payload|
  {
    if payload != [] {
      var c := Min(MSS, |payload|);
      var rest := Layout(payload[c..], start + c, route);
      var m := Layout(payload, start, route);
      LayoutSegments(payload[c..], start + c, route);
      assert start !in rest;
      assert m == rest[start := Segment(payload[..c], route, false, None)];
      var mk := MinKey(m.Keys);
      assert start in m.Keys;
      assert mk <= start;
      assert mk !in rest;
      assert mk == start;
      assert m - {start} == rest;
      LayoutReassembles(payload[c..], start + c, route);
      assert payload[..c] + payload[c..] == payload;
    }
  }

  /** One iteration of the segmentation loop: storing the first piece moves it from the layout still to come into the buffer. */
  lemma LayoutStep(buf: map<int, Segment>, rest: Bytes, next: int, route: Route)
    requires rest != []
    requires forall k :: k in buf ==> k < next
    ensures var c := Min(MSS, |rest|);
      buf + Layout(rest, next, route)
        == buf[next := Segment(rest[..c], route, false, None)] + Layout(rest[c..], next + c, route)
  {
    var c := Min(MSS, |rest|);
    LayoutSegments(rest[c..], next + c, route);
  }

  /**
   * Enqueueing advances next_seq by the payload length, keeps every older
   * entry, adds only offsets at or above the old next_seq, and keeps `Inv`;
   * an empty payload changes nothing.
   */
  lemma EnqueuedFacts(s: SenderState, payload: Bytes, route: Route)
    requires Inv(s)
    ensures Enqueued(s, payload, route).nextSeq == s.nextSeq + |payload|
    ensures forall k :: k in s.buffer ==>
      (k in Enqueued(s, payload, route).buffer && Enqueued(s, payload, route).buffer[k] == s.buffer[k])
    ensures forall k :: k in Enqueued(s, payload, route).buffer && k !in s.buffer ==>
      s.nextSeq <= k < s.nextSeq + |payload|
    ensures Inv(Enqueued(s, payload, route))
    ensures payload == [] ==> Enqueued(s, payload, route) == s
  {
    LayoutSegments(payload, s.nextSeq, route);
  }

  // ---------------------------------------------------------------------
  // Window-gated transmission (`_try_send`, client_tcp.py:138-170)
  // ---------------------------------------------------------------------

  /** `allowed`: min(cwnd, rwnd) minus next_seq - send_base, which counts queued-but-unsent bytes too. */
  function Window(s: SenderState): int
  {
    Min(s.cwnd, s.rwnd) - (s.nextSeq - s.sendBase)
  }

  datatype Round = Round(buffer: map<int, Segment>, out: seq<Transmission>, failed: bool)

  function Transmit(from: Name, k: int, seg: Segment): Transmission
  {
    Transmission(seg.route.kind, from, seg.route.to, seg.route.room, k, seg.payload)
  }

  function Prepend(out: seq<Transmission>, r: Round): Round
  {
    Round(r.buffer, out + r.out, r.failed)
  }

  /** The `for seq in seqs` loop over the offsets `keys`, with `allowed` bytes left. */
  function SendRound(from: Name, buf: map<int, Segment>, keys: seq<int>, allowed: int, link: Link, now: real): Round
    requires forall i :: 0 <= i < |keys| ==> keys[i] in buf
    decreases |keys|
  {
    if keys == [] || allowed <= 0 then Round(buf, [], false)
    else
      var k := keys[0];
      var seg := buf[k];
      if seg.sent then SendRound(from, buf, keys[1..], allowed, link, now)
      else if link == BreaksAfter(0) then Round(buf, [], true)
      else
        var buf' := buf[k := seg.(sent := true, sentTime := Some(now))];
        Prepend([Transmit(from, k, seg)], SendRound(from, buf', keys[1..], allowed - |seg.payload|, Accepted(link), now))
  }

  datatype Outcome = Outcome(state: SenderState, out: seq<Transmission>)

  /** `_try_send`: nothing at all when the window is closed; otherwise one round, then the timer is armed unless a send failed. */
  function AfterTrySend(from: Name, s: SenderState, link: Link, now: real): Outcome
  {
    if Window(s) <= 0 then Outcome(s, [])
    else
      var r := SendRound(from, s.buffer, Ascending(s.buffer.Keys), Window(s), link, now);
      Outcome(s.(buffer := r.buffer, timerAlive := s.timerAlive || !r.failed), r.out)
  }

  function Offsets(out: seq<Transmission>): set<int>
  {
    set t | t in out :: t.offset
  }

  function TotalBytes(out: seq<Transmission>): int
  {
    if out == [] then 0 else |out[0].payload| + TotalBytes(out[1..])
  }

  predicate StrictlyAscending(keys: seq<int>)
  {
    forall i, j :: 0 <= i < j < |keys| ==> keys[i] < keys[j]
  }

  /**
   * One round keeps the buffer's offsets, transmits only offsets it was
   * given, and leaves every entry it did not transmit as it was.
   */
  lemma {:induction false} SendRoundFrame(from: Name, buf: map<int, Segment>, keys: seq<int>, allowed: int, link: Link, now: real)
    requires forall i :: 0 <= i < |keys| ==> keys[i] in buf
    ensures var r := SendRound(from, buf, keys, allowed, link, now);
      && r.buffer.Keys == buf.Keys
      && (forall i :: 0 <= i < |r.out| ==> r.out[i].offset in keys)
      && (forall k :: k in buf && k !in Offsets(r.out) ==> r.buffer[k] == buf[k])
    decreases |keys|
  {
    if keys != [] && allowed > 0 {
      var k := keys[0];
      var seg := buf[k];
      if seg.sent {
        SendRoundFrame(from, buf, keys[1..], allowed, link, now);
      } else if link != BreaksAfter(0) {
        var buf' := buf[k := seg.(sent := true, sentTime := Some(now))];
        SendRoundFrame(from, buf', keys[1..], allowed - |seg.payload|, Accepted(link), now);
        var rest := SendRound(from, buf', keys[1..], allowed - |seg.payload|, Accepted(link), now);
        var out := [Transmit(from, k, seg)] + rest.out;
        assert SendRound(from, buf, keys, allowed, link, now).out == out;
        forall i | 0 <= i < |out|
          ensures out[i].offset in keys
        {
          if i > 0 {
            assert out[i] == rest.out[i - 1];
          }
        }
      }
    }
  }

  /** Every frame of `r` carried a segment of `buf` that was unsent, exactly as buffered, and is now marked sent at `now`. */
  predicate SentAsBuffered(from: Name, buf: map<int, Segment>, r: Round, now: real)
  {
    forall i :: 0 <= i < |r.out| ==>
      && r.out[i].offset in buf
      && !buf[r.out[i].offset].sent
      && r.out[i] == Transmit(from, r.out[i].offset, buf[r.out[i].offset])
      && r.out[i].offset in r.buffer
      && r.buffer[r.out[i].offset] == buf[r.out[i].offset].(sent := true, sentTime := Some(now))
  }

  /**
   * One round transmits only segments that were unsent, each exactly as
   * buffered, and marks each one sent with the send time.
   */
  lemma {:induction false} SendRoundMarks(from: Name, buf: map<int, Segment>, keys: seq<int>, allowed: int, link: Link, now: real)
    requires forall i :: 0 <= i < |keys| ==> keys[i] in buf
    requires StrictlyAscending(keys)
    ensures SentAsBuffered(from, buf, SendRound(from, buf, keys, allowed, link, now), now)
    decreases |keys|
  {
    if keys != [] && allowed > 0 {
      var k := keys[0];
      var seg := buf[k];
      assert forall i :: 0 <= i < |keys[1..]| ==> keys[1..][i] > k;
      if seg.sent {
        assert SendRound(from, buf, keys, allowed, link, now) == SendRound(from, buf, keys[1..], allowed, link, now);
        SendRoundMarks(from, buf, keys[1..], allowed, link, now);
      } else if link != BreaksAfter(0) {
        var buf' := buf[k := seg.(sent := true, sentTime := Some(now))];
        var allowed' := allowed - |seg.payload|;
        SendRoundFrame(from, buf', keys[1..], allowed', Accepted(link), now);
        SendRoundMarks(from, buf', keys[1..], allowed', Accepted(link), now);
        var rest := SendRound(from, buf', keys[1..], allowed', Accepted(link), now);
        assert k !in Offsets(rest.out);
        var r := SendRound(from, buf, keys, allowed, link, now);
        assert r.out == [Transmit(from, k, seg)] + rest.out;
        forall i | 0 < i < |r.out|
          ensures r.out[i].offset != k && r.out[i] == rest.out[i - 1]
        {
          assert rest.out[i - 1].offset in keys[1..];
        }
      }
    }
  }

  predicate InOffsetOrderSent(out: seq<Transmission>)
  {
    forall i, j :: 0 <= i < j < |out| ==> out[i].offset < out[j].offset
  }

  /** A round transmits in strictly ascending offset order. */
  lemma {:induction false} SendRoundAscending(from: Name, buf: map<int, Segment>, keys: seq<int>, allowed: int, link: Link, now: real)
    requires forall i :: 0 <= i < |keys| ==> keys[i] in buf
    requires StrictlyAscending(keys)
    ensures InOffsetOrderSent(SendRound(from, buf, keys, allowed, link, now).out)
    decreases |keys|
  {
    if keys != [] && allowed > 0 {
      var k := keys[0];
      var seg := buf[k];
      assert forall i :: 0 <= i < |keys[1..]| ==> keys[1..][i] > k;
      if seg.sent {
        assert SendRound(from, buf, keys, allowed, link, now) == SendRound(from, buf, keys[1..], allowed, link, now);
        SendRoundAscending(from, buf, keys[1..], allowed, link, now);
      } else if link != BreaksAfter(0) {
        var buf' := buf[k := seg.(sent := true, sentTime := Some(now))];
        var allowed' := allowed - |seg.payload|;
        SendRoundFrame(from, buf', keys[1..], allowed', Accepted(link), now);
        SendRoundAscending(from, buf', keys[1..], allowed', Accepted(link), now);
        var rest := SendRound(from, buf', keys[1..], allowed', Accepted(link), now);
        var r := SendRound(from, buf, keys, allowed, link, now);
        assert r.out == [Transmit(from, k, seg)] + rest.out;
        forall i | 0 < i < |r.out|
          ensures k < r.out[i].offset && r.out[i] == rest.out[i - 1]
        {
          assert rest.out[i - 1].offset in keys[1..];
        }
      }
    }
  }

  /** Every frame of `out` starts while fewer than `allowed` bytes have gone before it. */
  predicate WithinBudget(out: seq<Transmission>, allowed: int)
  {
    forall i :: 0 <= i < |out| ==> TotalBytes(out[..i]) < allowed
  }

  /**
   * Each transmission of a round starts while some allowance is left, so the
   * round overshoots `allowed` by at most its last segment.
   */
  lemma {:induction false} SendRoundBudget(from: Name, buf: map<int, Segment>, keys: seq<int>, allowed: int, link: Link, now: real)
    requires forall i :: 0 <= i < |keys| ==> keys[i] in buf
    ensures WithinBudget(SendRound(from, buf, keys, allowed, link, now).out, allowed)
    decreases |keys|
  {
    if keys != [] && allowed > 0 {
      var k := keys[0];
      var seg := buf[k];
      if seg.sent {
        SendRoundBudget(from, buf, keys[1..], allowed, link, now);
      } else if link != BreaksAfter(0) {
        var buf' := buf[k := seg.(sent := true, sentTime := Some(now))];
        var allowed' := allowed - |seg.payload|;
        SendRoundBudget(from, buf', keys[1..], allowed', Accepted(link), now);
        var rest := SendRound(from, buf', keys[1..], allowed', Accepted(link), now);
        var out := [Transmit(from, k, seg)] + rest.out;
        assert SendRound(from, buf, keys, allowed, link, now).out == out;
        forall i | 0 <= i < |out|
          ensures TotalBytes(out[..i]) < allowed
        {
          if i > 0 {
            var p := out[..i];
            assert p[0].payload == seg.payload;
            assert p[1..] == rest.out[..i - 1];
            assert TotalBytes(p) == |seg.payload| + TotalBytes(rest.out[..i - 1]);
            assert TotalBytes(rest.out[..i - 1]) < allowed';
          } else {
            assert out[..i] == [];
          }
        }
      }
    }
  }

  /**
   * A round fails exactly on the frame the link refuses: a healthy link
   * never fails, and `BreaksAfter(n)` fails only after n accepted frames.
   */
  lemma {:induction false} SendRoundFailure(from: Name, buf: map<int, Segment>, keys: seq<int>, allowed: int, link: Link, now: real)
    requires forall i :: 0 <= i < |keys| ==> keys[i] in buf
    ensures var r := SendRound(from, buf, keys, allowed, link, now);
      && (r.failed ==> link == BreaksAfter(|r.out|))
      && (link.BreaksAfter? && !r.failed ==> |r.out| <= link.n)
    decreases |keys|
  {
    if keys != [] && allowed > 0 {
      var k := keys[0];
      var seg := buf[k];
      if seg.sent {
        SendRoundFailure(from, buf, keys[1..], allowed, link, now);
      } else if link != BreaksAfter(0) {
        var buf' := buf[k := seg.(sent := true, sentTime := Some(now))];
        SendRoundFailure(from, buf', keys[1..], allowed - |seg.payload|, Accepted(link), now);
      }
    }
  }

  /**
   * Without a failure a round stops only when the allowance is spent or
   * every listed segment is marked sent.
   */
  lemma {:induction false} SendRoundStops(from: Name, buf: map<int, Segment>, keys: seq<int>, allowed: int, link: Link, now: real)
    requires forall i :: 0 <= i < |keys| ==> keys[i] in buf
    requires StrictlyAscending(keys)
    ensures var r := SendRound(from, buf, keys, allowed, link, now);
      !r.failed ==>
        TotalBytes(r.out) >= allowed
        || forall i :: 0 <= i < |keys| ==> keys[i] in r.buffer && r.buffer[keys[i]].sent
    decreases |keys|
  {
    if keys != [] && allowed > 0 {
      var k := keys[0];
      var seg := buf[k];
      assert forall i :: 0 <= i < |keys[1..]| ==> keys[1..][i] > k;
      var r := SendRound(from, buf, keys, allowed, link, now);
      if seg.sent {
        SendRoundStops(from, buf, keys[1..], allowed, link, now);
        SendRoundFrame(from, buf, keys[1..], allowed, link, now);
        assert k !in Offsets(r.out);
      } else if link != BreaksAfter(0) {
        var buf' := buf[k := seg.(sent := true, sentTime := Some(now))];
        var allowed' := allowed - |seg.payload|;
        SendRoundStops(from, buf', keys[1..], allowed', Accepted(link), now);
        SendRoundFrame(from, buf', keys[1..], allowed', Accepted(link), now);
        var rest := SendRound(from, buf', keys[1..], allowed', Accepted(link), now);
        assert k !in Offsets(rest.out);
        assert r.out[1..] == rest.out;
      }
    }
  }

  /** With the window open, `_try_send` is exactly one round over the sorted offsets. */
  lemma OpenWindowRound(from: Name, s: SenderState, keys: seq<int>, allowed: int, link: Link, now: real, r: Round)
    requires allowed == Window(s) > 0 && keys == Ascending(s.buffer.Keys)
    requires r == SendRound(from, s.buffer, keys, allowed, link, now)
    ensures AfterTrySend(from, s, link, now) == Outcome(s.(buffer := r.buffer, timerAlive := s.timerAlive || !r.failed), r.out)
  {
  }

  /** With the window closed (outstanding already at min(cwnd, rwnd)) `_try_send` changes nothing and sends nothing. */
  lemma WindowFullIsNoOp(from: Name, s: SenderState, link: Link, now: real)
    requires Window(s) <= 0
    ensures AfterTrySend(from, s, link, now) == Outcome(s, [])
  {
  }

  /** `_try_send` touches only the buffer's sent marks and the timer, and keeps `Inv`. */
  lemma TrySendFacts(from: Name, s: SenderState, link: Link, now: real)
    requires Inv(s)
    ensures var o := AfterTrySend(from, s, link, now);
      && Inv(o.state)
      && o.state.buffer.Keys == s.buffer.Keys
      && o.state == s.(buffer := o.state.buffer, timerAlive := o.state.timerAlive)
      && (forall i :: 0 <= i < |o.out| ==>
            o.out[i].offset in s.buffer && !s.buffer[o.out[i].offset].sent && o.state.buffer[o.out[i].offset].sent)
  {
    if Window(s) > 0 {
      var keys := Ascending(s.buffer.Keys);
      var r := SendRound(from, s.buffer, keys, Window(s), link, now);
      assert AfterTrySend(from, s, link, now) == Outcome(s.(buffer := r.buffer, timerAlive := s.timerAlive || !r.failed), r.out);
      SendRoundFrame(from, s.buffer, keys, Window(s), link, now);
      SendRoundMarks(from, s.buffer, keys, Window(s), link, now);
    }
  }

  /** The part of `TrySendFacts` the `Sender` object needs: the invariant survives. */
  lemma TrySendKeepsInv(from: Name, s: SenderState, link: Link, now: real)
    requires Inv(s)
    ensures Inv(AfterTrySend(from, s, link, now).state)
  {
    TrySendFacts(from, s, link, now);
  }

  /**
   * Where the code departs from a textbook sender: because `outstanding`
   * counts every enqueued byte, a fresh sender asked to write one MSS or
   * more sends nothing at all (not even the first, full-size segment).
   */
  lemma OversizedWriteStalls(from: Name, payload: Bytes, route: Route, link: Link, now: real)
    requires |payload| >= INIT_CWND
    ensures AfterTrySend(from, Enqueued(Initial(), payload, route), link, now).out == []
  {
  }

  // ---------------------------------------------------------------------
  // ACK processing (`handle_ack`, client_tcp.py:191-219)
  // ---------------------------------------------------------------------

  /** Fast-retransmit reaction: halve into ssthresh, inflate cwnd by three segments, mark send_base for resending. */
  function FastRetransmit(s: SenderState): SenderState
  {
    var ss := Congestion.ReducedThreshold(s.cwnd, MSS);
    var buf := if s.sendBase in s.buffer then s.buffer[s.sendBase := s.buffer[s.sendBase].(sent := false)] else s.buffer;
    s.(ssthresh := ss, cwnd := ss + 3 * MSS, buffer := buf)
  }

  function DupCount(s: SenderState, ack: int): nat
  {
    if ack in s.dupAcks then s.dupAcks[ack] else 0
  }

  /** A new cumulative ACK: drop the buffered entries below it, advance send_base, grow cwnd, clear the counters. */
  function NewAck(s: SenderState, ack: int): SenderState
  {
    var c := Congestion.AfterAck(Congestion.Cc(s.cwnd, s.ssthresh, MSS));
    s.(buffer := map k | k in s.buffer && k >= ack :: s.buffer[k],
       sendBase := ack, cwnd := c.cwnd, dupAcks := map[])
  }

  /** An ACK equal to send_base: count it, and react to the third and every later one. */
  function DuplicateAck(s: SenderState, ack: int): SenderState
  {
    var cnt := DupCount(s, ack) + 1;
    var s2 := s.(dupAcks := s.dupAcks[ack := cnt]);
    if cnt >= 3 then FastRetransmit(s2) else s2
  }

  function AckHandled(s: SenderState, ack: int, advRwnd: Option<int>): SenderState
  {
    var s1 := if advRwnd.Some? then s.(rwnd := advRwnd.value) else s;
    if ack > s1.sendBase then NewAck(s1, ack)
    else if ack == s1.sendBase then DuplicateAck(s1, ack)
    else s1
  }

  /**
   * A new cumulative ACK deletes exactly the entries below it, moves
   * send_base to it, grows cwnd by the slow-start/avoidance rule and clears
   * the duplicate counters; an old ACK changes nothing but rwnd.  Neither
   * touches next_seq or the timer.
   */
  lemma NewAckFacts(s: SenderState, ack: int, advRwnd: Option<int>)
    requires Inv(s)
    ensures var s' := AckHandled(s, ack, advRwnd);
      && s'.rwnd == (if advRwnd.Some? then advRwnd.value else s.rwnd)
      && s'.nextSeq == s.nextSeq && s'.timerAlive == s.timerAlive
      && (ack > s.sendBase ==>
            && s'.buffer.Keys == set k | k in s.buffer && k >= ack
            && (forall k :: k in s'.buffer ==> s'.buffer[k] == s.buffer[k])
            && s'.sendBase == ack
            && (s.cwnd < s.ssthresh ==> s'.cwnd == s.cwnd + MSS)
            && (s.cwnd >= s.ssthresh ==> s'.cwnd == s.cwnd + Congestion.AvoidanceStep(s.cwnd, MSS))
            && s.cwnd < s'.cwnd
            && s'.ssthresh == s.ssthresh
            && s'.dupAcks == map[])
      && (ack < s.sendBase ==> s' == s.(rwnd := s'.rwnd))
  {
  }

  /**
   * A repeated ACK for send_base bumps its duplicate count; from the third
   * duplicate on, every further one re-enters fast retransmit, which only
   * clears the sent mark of the send_base segment.  rwnd is taken from the
   * ACK; next_seq and the timer are untouched.
   */
  lemma DuplicateAckFacts(s: SenderState, ack: int, advRwnd: Option<int>)
    requires Inv(s) && ack == s.sendBase
    ensures var s' := AckHandled(s, ack, advRwnd);
      && s'.rwnd == (if advRwnd.Some? then advRwnd.value else s.rwnd)
      && s'.nextSeq == s.nextSeq && s'.timerAlive == s.timerAlive
      && s'.dupAcks == s.dupAcks[ack := DupCount(s, ack) + 1]
      && s'.sendBase == s.sendBase && s'.buffer.Keys == s.buffer.Keys
      && (DupCount(s, ack) + 1 < 3 ==> s'.cwnd == s.cwnd && s'.ssthresh == s.ssthresh && s'.buffer == s.buffer)
      && (DupCount(s, ack) + 1 >= 3 ==>
            && s'.ssthresh == Congestion.ReducedThreshold(s.cwnd, MSS)
            && s'.cwnd == s'.ssthresh + 3 * MSS
            && (s.sendBase in s.buffer ==> s'.buffer[s.sendBase] == s.buffer[s.sendBase].(sent := false))
            && (forall k :: k in s.buffer && k != s.sendBase ==> s'.buffer[k] == s.buffer[k]))
  {
  }

  /** ACK processing keeps the standing invariant. */
  lemma AckHandledKeepsInv(s: SenderState, ack: int, advRwnd: Option<int>)
    requires Inv(s)
    ensures Inv(AckHandled(s, ack, advRwnd))
  {
    Congestion.AckNeverShrinks(Congestion.Cc(s.cwnd, s.ssthresh, MSS));
  }

  // ---------------------------------------------------------------------
  // Retransmission timeout (`_start_timer` after its sleep, client_tcp.py:174-184)
  // ---------------------------------------------------------------------

  /**
   * The timer body: a no-op when everything is acknowledged or send_base is
   * not buffered; otherwise ssthresh = max(cwnd // 2, MSS), cwnd = MSS,
   * send_base is marked unsent and `_try_send` runs.  The thread then ends.
   */
  function TimedOut(from: Name, s: SenderState, link: Link, now: real): Outcome
  {
    if s.sendBase >= s.nextSeq || s.sendBase !in s.buffer then Outcome(s.(timerAlive := false), [])
    else
      var s1 := s.(ssthresh := Congestion.ReducedThreshold(s.cwnd, MSS), cwnd := MSS,
                   buffer := s.buffer[s.sendBase := s.buffer[s.sendBase].(sent := false)]);
      var o := AfterTrySend(from, s1, link, now);
      Outcome(o.state.(timerAlive := false), o.out)
  }

  /**
   * A timeout collapses cwnd to one MSS, sets ssthresh from half the old
   * window and keeps `Inv`.  The send_base segment is either resent in this
   * call or left marked unsent for the next `_try_send`; offsets, next_seq,
   * send_base, the duplicate counters and rwnd are untouched.  With one MSS
   * or more outstanding the collapsed window sends nothing.
   */
  lemma TimedOutFacts(from: Name, s: SenderState, link: Link, now: real)
    requires Inv(s)
    ensures var o := TimedOut(from, s, link, now);
      && Inv(o.state)
      && !o.state.timerAlive
      && (s.sendBase >= s.nextSeq || s.sendBase !in s.buffer ==> o == Outcome(s.(timerAlive := false), []))
      && (s.sendBase < s.nextSeq && s.sendBase in s.buffer ==>
            && o.state.cwnd == MSS && o.state.ssthresh == Congestion.ReducedThreshold(s.cwnd, MSS)
            && o.state.buffer.Keys == s.buffer.Keys
            && o.state.nextSeq == s.nextSeq && o.state.sendBase == s.sendBase
            && o.state.dupAcks == s.dupAcks && o.state.rwnd == s.rwnd
            && (s.sendBase in Offsets(o.out) || !o.state.buffer[s.sendBase].sent)
            && (s.nextSeq - s.sendBase >= MSS ==> o.out == []))
  {
    if s.sendBase < s.nextSeq && s.sendBase in s.buffer {
      TimeoutEffect(from, s, link, now);
    }
  }

  /** The outstanding case of `TimedOutFacts`, stated on the state `_try_send` is called with. */
  lemma TimeoutEffect(from: Name, s: SenderState, link: Link, now: real)
    requires Inv(s) && s.sendBase < s.nextSeq && s.sendBase in s.buffer
    ensures var o := TimedOut(from, s, link, now);
      && Inv(o.state)
      && !o.state.timerAlive
      && o.state.cwnd == MSS && o.state.ssthresh == Congestion.ReducedThreshold(s.cwnd, MSS)
      && o.state.buffer.Keys == s.buffer.Keys
      && o.state.nextSeq == s.nextSeq && o.state.sendBase == s.sendBase
      && o.state.dupAcks == s.dupAcks && o.state.rwnd == s.rwnd
      && (s.sendBase in Offsets(o.out) || !o.state.buffer[s.sendBase].sent)
      && (s.nextSeq - s.sendBase >= MSS ==> o.out == [])
  {
    var s1 := s.(ssthresh := Congestion.ReducedThreshold(s.cwnd, MSS), cwnd := MSS,
                 buffer := s.buffer[s.sendBase := s.buffer[s.sendBase].(sent := false)]);
    var a := AfterTrySend(from, s1, link, now);
    assert TimedOut(from, s, link, now) == Outcome(a.state.(timerAlive := false), a.out);
    TrySendFacts(from, s1, link, now);
    if Window(s1) > 0 {
      SendRoundFrame(from, s1.buffer, Ascending(s1.buffer.Keys), Window(s1), link, now);
    }
  }

  /**
   * The timer body as written: `_start_timer` still holds the non-reentrant
   * `buffer_lock` when it calls `_try_send`, whose first step acquires that
   * lock again.  The window reduction and the unsent mark take effect, no
   * frame goes out, and the timer thread never ends, so it stays alive.
   */
  function TimedOutAsWritten(s: SenderState): Outcome
  {
    if s.sendBase >= s.nextSeq || s.sendBase !in s.buffer then Outcome(s.(timerAlive := false), [])
    else
      Outcome(s.(ssthresh := Congestion.ReducedThreshold(s.cwnd, MSS), cwnd := MSS,
                 buffer := s.buffer[s.sendBase := s.buffer[s.sendBase].(sent := false)],
                 timerAlive := true), [])
  }

  /**
   * The intended timeout retransmits: when send_base is the oldest buffered
   * offset and the collapsed window still has room, the first frame out is
   * the send_base segment, which ends up marked sent again.
   */
  lemma TimeoutResends(from: Name, s: SenderState, now: real)
    requires Inv(s) && s.sendBase < s.nextSeq && s.sendBase in s.buffer
    requires forall k :: k in s.buffer ==> k >= s.sendBase
    requires s.nextSeq - s.sendBase < Min(MSS, s.rwnd)
    ensures var o := TimedOut(from, s, Healthy, now);
      && |o.out| > 0
      && o.out[0] == Transmit(from, s.sendBase, s.buffer[s.sendBase])
      && s.sendBase in o.state.buffer && o.state.buffer[s.sendBase].sent
  {
    var s1 := s.(ssthresh := Congestion.ReducedThreshold(s.cwnd, MSS), cwnd := MSS,
                 buffer := s.buffer[s.sendBase := s.buffer[s.sendBase].(sent := false)]);
    var keys := Ascending(s1.buffer.Keys);
    assert s.sendBase in keys;
    var i :| 0 <= i < |keys| && keys[i] == s.sendBase;
    assert keys[0] in s1.buffer.Keys && keys[0] <= keys[i];
    assert keys[0] == s.sendBase;
    TrySendFacts(from, s1, Healthy, now);
    SendRoundMarks(from, s1.buffer, keys, Window(s1), Healthy, now);
  }

  /**
   * As written the timeout never retransmits: in the very states where the
   * intended body resends send_base, the blocked call sends nothing and the
   * hung thread keeps the timer from ever being re-armed.
   */
  lemma TimeoutHangs(from: Name, s: SenderState, now: real)
    requires Inv(s) && s.sendBase < s.nextSeq && s.sendBase in s.buffer
    requires forall k :: k in s.buffer ==> k >= s.sendBase
    requires s.nextSeq - s.sendBase < Min(MSS, s.rwnd)
    ensures var w := TimedOutAsWritten(s);
      && w.out == [] && w.state.timerAlive && !w.state.buffer[s.sendBase].sent
      && TimedOut(from, s, Healthy, now).out != w.out
  {
    TimeoutResends(from, s, now);
  }

  /**
   * The `for seq in seqs` loop of `_try_send`: walk the offsets in order,
   * skip segments already sent, stop when the allowance is spent, give up
   * on the first refused frame.
   */
  method SendLoop(from: Name, buf: map<int, Segment>, keys: seq<int>, allowed: int, link: Link, now: real) returns (r: Round)
    requires forall i :: 0 <= i < |keys| ==> keys[i] in buf
    ensures r == SendRound(from, buf, keys, allowed, link, now)
  {
    var buffer := buf;
    var out: seq<Transmission> := [];
    var left := allowed;
    var l := link;
    var i := 0;
    while i < |keys|
      invariant 0 <= i <= |keys|
      invariant buffer.Keys == buf.Keys
      invariant SendRound(from, buf, keys, allowed, link, now)
             == Prepend(out, SendRound(from, buffer, keys[i..], left, l, now))
    {
      if left <= 0 {
        break;
      }
      var off := keys[i];
      var seg := buffer[off];
      assert keys[i..][1..] == keys[i + 1..];
      if !seg.sent {
        if l == BreaksAfter(0) {
          return Round(buffer, out, true);
        }
        out := out + [Transmit(from, off, seg)];
        buffer := buffer[off := seg.(sent := true, sentTime := Some(now))];
        l := Accepted(l);
        left := left - |seg.payload|;
      }
      i := i + 1;
    }
    return Round(buffer, out, false);
  }

  /** The `to_delete` loop of `handle_ack`: every buffered offset below the ACK. */
  method Acknowledged(offsets: set<int>, ack: int) returns (toDelete: set<int>)
    ensures forall k :: k in toDelete <==> k in offsets && k < ack
  {
    toDelete := {};
    var pending := offsets;
    while pending != {}
      invariant pending <= offsets
      invariant forall k :: k in toDelete <==> k in offsets && k !in pending && k < ack
      decreases |pending|
    {
      ghost var w := Element(pending);
      var k :| k in pending;
      if k < ack {
        toDelete := toDelete + {k};
      }
      pending := pending - {k};
    }
  }

  /** Deleting the collected offsets leaves exactly the entries at or above the ACK. */
  lemma AckedRemoval(buf: map<int, Segment>, ack: int, toDelete: set<int>)
    requires forall k :: k in toDelete <==> k in buf && k < ack
    ensures buf - toDelete == map k | k in buf && k >= ack :: buf[k]
  {
  }

  // ---------------------------------------------------------------------
  // The `Sender` object
  // ---------------------------------------------------------------------

  class Sender {
    const myname: Name
    var nextSeq: int
    var sendBase: int
    var buffer: map<int, Segment>
    var cwnd: int
    var ssthresh: int
    var dupAcks: map<int, nat>
    var rwnd: int
    var timerAlive: bool

    function State(): SenderState
      reads this
    {
      SenderState(nextSeq, sendBase, buffer, cwnd, ssthresh, dupAcks, rwnd, timerAlive)
    }

    ghost predicate Valid()
      reads this
    {
      Inv(State())
    }

    constructor (myname: Name)
      ensures Valid() && State() == Initial() && this.myname == myname
    {
      this.myname := myname;
      nextSeq, sendBase := 1, 1;
      buffer := map[];
      cwnd, ssthresh := INIT_CWND, INIT_SSTHRESH;
      dupAcks := map[];
      rwnd := RECV_RWND;
      timerAlive := false;
    }

    /** `_enqueue_and_try_send`: buffer the write, then (outside the lock) `_try_send`. */
    method EnqueueAndTrySend(route: Route, payload: Bytes, link: Link, now: real) returns (out: seq<Transmission>)
      requires Valid()
      modifies this
      ensures Valid()
      ensures Outcome(State(), out) == AfterTrySend(myname, Enqueued(old(State()), payload, route), link, now)
    {
      Enqueue(route, payload);
      out := TrySend(link, now);
    }

    /** The locked part of `_enqueue_and_try_send`: cut the payload into MSS pieces and buffer them. */
    method Enqueue(route: Route, payload: Bytes)
      requires Valid()
      modifies this
      ensures Valid()
      ensures State() == Enqueued(old(State()), payload, route)
    {
      ghost var start := nextSeq;
      var i := 0;
      while i < |payload|
        invariant 0 <= i <= |payload|
        invariant nextSeq == start + i
        invariant forall k :: k in buffer ==> k < nextSeq
        invariant old(buffer) + Layout(payload, start, route) == buffer + Layout(payload[i..], nextSeq, route)
        invariant sendBase == old(sendBase) && cwnd == old(cwnd) && ssthresh == old(ssthresh)
        invariant dupAcks == old(dupAcks) && rwnd == old(rwnd) && timerAlive == old(timerAlive)
      {
        var seg := payload[i .. Min(i + MSS, |payload|)];
        ghost var rest := payload[i..];
        assert seg == rest[..Min(MSS, |rest|)] && payload[i + |seg|..] == rest[|seg|..];
        LayoutStep(buffer, rest, nextSeq, route);
        var off := nextSeq;
        buffer := buffer[off := Segment(seg, route, false, None)];
        nextSeq := nextSeq + (if |seg| == 0 then 1 else |seg|);
        i := i + |seg|;
      }
      assert payload[i..] == [];
      assert buffer == old(buffer) + Layout(payload, start, route);
      EnqueuedFacts(old(State()), payload, route);
    }

    /** `_try_send`. */
    method TrySend(link: Link, now: real) returns (out: seq<Transmission>)
      requires Valid()
      modifies this
      ensures Valid()
      ensures Outcome(State(), out) == AfterTrySend(myname, old(State()), link, now)
    {
      ghost var s := State();
      ghost var o := AfterTrySend(myname, s, link, now);
      TrySendKeepsInv(myname, s, link, now);
      out := [];
      var outstanding := nextSeq - sendBase;
      var allowed := Min(cwnd, rwnd) - outstanding;
      if allowed <= 0 {
        return;
      }
      var keys := Ascending(buffer.Keys);
      assert allowed == Window(s) && keys == Ascending(s.buffer.Keys);
      var r := SendLoop(myname, buffer, keys, allowed, link, now);
      OpenWindowRound(myname, s, keys, allowed, link, now, r);
      buffer := r.buffer;
      out := r.out;
      if !r.failed {
        timerAlive := true;
      }
      assert State() == o.state;
    }

    /** The body `_start_timer` runs once its sleep ends. */
    method OnTimerExpiry(link: Link, now: real) returns (out: seq<Transmission>)
      requires Valid()
      modifies this
      ensures Valid()
      ensures Outcome(State(), out) == TimedOut(myname, old(State()), link, now)
    {
      ghost var s := State();
      out := [];
      if sendBase >= nextSeq || sendBase !in buffer {
        timerAlive := false;
        return;
      }
      var off := sendBase;
      ssthresh := Max(cwnd / 2, MSS);
      cwnd := MSS;
      buffer := buffer[off := buffer[off].(sent := false)];
      assert State() == s.(ssthresh := Congestion.ReducedThreshold(s.cwnd, MSS), cwnd := MSS,
                           buffer := s.buffer[s.sendBase := s.buffer[s.sendBase].(sent := false)]);
      out := TrySend(link, now);
      timerAlive := false;
    }

    /** `handle_ack`. */
    method HandleAck(ack: int, advRwnd: Option<int>)
      requires Valid()
      modifies this
      ensures State() == AckHandled(old(State()), ack, advRwnd)
      ensures Valid()
    {
      AckHandledKeepsInv(State(), ack, advRwnd);
      if advRwnd.Some? {
        rwnd := advRwnd.value;
      }
      if ack > sendBase {
        OnNewAck(ack);
      } else if ack == sendBase {
        OnDuplicateAck(ack);
      }
    }

    /** The new-ACK branch of `handle_ack`. */
    method OnNewAck(ack: int)
      requires ack > sendBase
      modifies this
      ensures State() == NewAck(old(State()), ack)
    {
      var toDelete := Acknowledged(buffer.Keys, ack);
      AckedRemoval(buffer, ack, toDelete);
      buffer := buffer - toDelete;
      sendBase := ack;
      if cwnd < ssthresh {
        cwnd := cwnd + MSS;
      } else {
        cwnd := cwnd + Congestion.AvoidanceStep(cwnd, MSS);
      }
      dupAcks := map[];
    }

    /** The duplicate-ACK branch of `handle_ack`. */
    method OnDuplicateAck(ack: int)
      modifies this
      ensures State() == DuplicateAck(old(State()), ack)
    {
      dupAcks := dupAcks[ack := (if ack in dupAcks then dupAcks[ack] else 0) + 1];
      var cnt := dupAcks[ack];
      if cnt >= 3 {
        ssthresh := Max(cwnd / 2, MSS);
        cwnd := ssthresh + 3 * MSS;
        if sendBase in buffer {
          buffer := buffer[sendBase := buffer[sendBase].(sent := false)];
        }
      }
    }
  }
}
