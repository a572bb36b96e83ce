/**
 * The transport receiver of client_tcp.py (`Receiver.process_segment` and
 * the bookkeeping half of `_deliver_payload`): a reorder buffer keyed by
 * byte offset, an in-order cursor `expected_seq` that drains the buffer,
 * and a cumulative ACK that is both sent on the wire and fed to the local
 * sender's `handle_ack`.
 *
 * Printing is modelled as the delivery log `log`; chunk bytes kept for a
 * later FILE_META go to `files`.
 */
module TcpReceiver {
  import opened Common
  import opened TcpSender

  /** A reorder-buffer entry `(payload, type, meta)`. */
  datatype Stored = Stored(payload: Bytes, kind: Kind, meta: Option<nat>)

  /** One `_deliver_payload` call: what was handed to the application, and under which sender name. */
  datatype Delivery = Delivery(kind: Kind, from: Name, payload: Bytes)

  /** The ACK frame `{type: ACK, from, ack, rwnd}` sent back. */
  datatype AckFrame = AckFrame(from: Name, ack: int, rwnd: int)

  datatype RecvState = RecvState(expected: int, buffer: map<int, Stored>, files: map<Name, seq<Bytes>>, log: seq<Delivery>)

  function InitialRecv(): RecvState
  {
    RecvState(1, map[], map[], [])
  }

  /** The cursor never points at a buffered segment: the drain has always run to completion. */
  ghost predicate RecvInv(s: RecvState)
  {
    s.expected !in s.buffer
  }

  /** `expected_seq += len(payload) or 1`. */
  function Advance(n: int, payload: Bytes): (r: int)
    ensures r > n
  {
    n + (if |payload| == 0 then 1 else |payload|)
  }

  /** `_deliver_payload`: log the delivery; a FILE_CHUNK is also appended to `files[frm]`. */
  function Deliver(s: RecvState, kind: Kind, frm: Name, payload: Bytes): RecvState
  {
    var files := if kind == FileChunk then s.files[frm := (if frm in s.files then s.files[frm] else []) + [payload]] else s.files;
    s.(log := s.log + [Delivery(kind, frm, payload)], files := files)
  }

  /** The `while expected_seq in buffer` drain; buffered entries are delivered under the current message's sender. */
  function Drain(s: RecvState, frm: Name): RecvState
    decreases |s.buffer|
  {
    if s.expected in s.buffer then
      var st := s.buffer[s.expected];
      var s1 := Deliver(s.(buffer := s.buffer - {s.expected}), st.kind, frm, st.payload);
      Drain(s1.(expected := Advance(s.expected, st.payload)), frm)
    else s
  }

  /** The state change of `process_segment` for a segment carrying `seq`. */
  function Received(s: RecvState, offset: int, kind: Kind, frm: Name, payload: Bytes, meta: Option<nat>): RecvState
  {
    if offset == s.expected then Drain(Deliver(s, kind, frm, payload).(expected := Advance(s.expected, payload)), frm)
    else if offset > s.expected then s.(buffer := s.buffer[offset := Stored(payload, kind, meta)])
    else s
  }

  /** The drain only moves the cursor forward, only appends to the log, and ends with the cursor off the buffer. */
  lemma {:induction false} DrainFacts(s: RecvState, frm: Name)
    ensures var d := Drain(s, frm);
      && d.expected >= s.expected
      && RecvInv(d)
      && |d.log| >= |s.log| && d.log[..|s.log|] == s.log
      && d.buffer.Keys <= s.buffer.Keys
    decreases |s.buffer|
  {
    if s.expected in s.buffer {
      var st := s.buffer[s.expected];
      var s1 := Deliver(s.(buffer := s.buffer - {s.expected}), st.kind, frm, st.payload);
      var s2 := s1.(expected := Advance(s.expected, st.payload));
      DrainFacts(s2, frm);
      var d := Drain(s2, frm);
      assert d.log[..|s.log|] == d.log[..|s2.log|][..|s.log|];
    }
  }

  /**
   * `process_segment`: the in-order segment is delivered and the buffer
   * drained; a later one is stored undelivered; an old one changes nothing.
   * The cursor never moves back and the invariant is kept.
   */
  lemma ReceivedFacts(s: RecvState, offset: int, kind: Kind, frm: Name, payload: Bytes, meta: Option<nat>)
    requires RecvInv(s)
    ensures var r := Received(s, offset, kind, frm, payload, meta);
      && RecvInv(r)
      && r.expected >= s.expected
      && (offset == s.expected ==> r.expected > s.expected && |r.log| > |s.log| && r.log[|s.log|] == Delivery(kind, frm, payload))
      && (offset > s.expected ==> r == s.(buffer := s.buffer[offset := Stored(payload, kind, meta)]))
      && (offset < s.expected ==> r == s)
  {
    if offset == s.expected {
      var s1 := Deliver(s, kind, frm, payload).(expected := Advance(s.expected, payload));
      DrainFacts(s1, frm);
    }
  }

  /** Processing the same segment twice delivers it once: the second copy finds the cursor past it. */
  lemma RepeatDeliveredOnce(s: RecvState, offset: int, kind: Kind, frm: Name, payload: Bytes, meta: Option<nat>)
    requires RecvInv(s) && offset == s.expected
    ensures var r := Received(s, offset, kind, frm, payload, meta);
      Received(r, offset, kind, frm, payload, meta) == r
  {
    ReceivedFacts(s, offset, kind, frm, payload, meta);
  }

  // ---------------------------------------------------------------------
  // In-order delivery of one byte stream
  // ---------------------------------------------------------------------

  function DeliveredBytes(log: seq<Delivery>): Bytes
  {
    if log == [] then [] else DeliveredBytes(log[..|log| - 1]) + log[|log| - 1].payload
  }

  /** A segment at `offset` (offsets start at 1) that is a non-empty slice of `stream`. */
  predicate SliceOf(stream: Bytes, offset: int, payload: Bytes)
  {
    1 <= offset && |payload| > 0 && offset - 1 + |payload| <= |stream| && payload == stream[offset - 1 .. offset - 1 + |payload|]
  }

  /** Receiver state consistent with `stream`: the log spells its first expected-1 bytes, every buffered entry is a slice of it. */
  ghost predicate Consistent(s: RecvState, stream: Bytes)
  {
    && 1 <= s.expected <= |stream| + 1
    && DeliveredBytes(s.log) == stream[..s.expected - 1]
    && (forall k :: k in s.buffer ==> SliceOf(stream, k, s.buffer[k].payload))
  }

  lemma DeliverAppends(s: RecvState, kind: Kind, frm: Name, payload: Bytes)
    ensures DeliveredBytes(Deliver(s, kind, frm, payload).log) == DeliveredBytes(s.log) + payload
  {
    var l := Deliver(s, kind, frm, payload).log;
    assert l[..|l| - 1] == s.log;
  }

  lemma {:induction false} DrainConsistent(s: RecvState, frm: Name, stream: Bytes)
    requires Consistent(s, stream)
    ensures Consistent(Drain(s, frm), stream)
    decreases |s.buffer|
  {
    if s.expected in s.buffer {
      var st := s.buffer[s.expected];
      var s1 := Deliver(s.(buffer := s.buffer - {s.expected}), st.kind, frm, st.payload);
      var s2 := s1.(expected := Advance(s.expected, st.payload));
      DeliverAppends(s.(buffer := s.buffer - {s.expected}), st.kind, frm, st.payload);
      assert stream[..s.expected - 1] + st.payload == stream[..s2.expected - 1];
      DrainConsistent(s2, frm, stream);
    }
  }

  /**
   * However the segments of one stream are reordered or repeated, the bytes
   * handed to the application are always exactly a prefix of the stream,
   * in order.
   */
  lemma ReceivedConsistent(s: RecvState, stream: Bytes, offset: int, kind: Kind, frm: Name, payload: Bytes, meta: Option<nat>)
    requires Consistent(s, stream) && SliceOf(stream, offset, payload)
    ensures Consistent(Received(s, offset, kind, frm, payload, meta), stream)
  {
    if offset == s.expected {
      var s1 := Deliver(s, kind, frm, payload).(expected := Advance(s.expected, payload));
      DeliverAppends(s, kind, frm, payload);
      assert stream[..s.expected - 1] + payload == stream[..s1.expected - 1];
      DrainConsistent(s1, frm, stream);
    }
  }

  // ---------------------------------------------------------------------
  // The `Receiver` object
  // ---------------------------------------------------------------------

  class Receiver {
    const myname: Name
    const sender: Sender
    var expectedSeq: int
    var buffer: map<int, Stored>
    var files: map<Name, seq<Bytes>>
    var log: seq<Delivery>

    function State(): RecvState
      reads this
    {
      RecvState(expectedSeq, buffer, files, log)
    }

    ghost predicate Valid()
      reads this, sender
    {
      RecvInv(State()) && sender.Valid()
    }

    constructor (myname: Name, sender: Sender)
      requires sender.Valid()
      ensures Valid() && State() == InitialRecv()
      ensures this.myname == myname && this.sender == sender
    {
      this.myname := myname;
      this.sender := sender;
      expectedSeq := 1;
      buffer := map[];
      files := map[];
      log := [];
    }

    /** `_deliver_payload`. */
    method DeliverPayload(kind: Kind, frm: Name, payload: Bytes)
      modifies this
      ensures State() == Deliver(old(State()), kind, frm, payload)
    {
      if kind == FileChunk {
        var chunks := if frm in files then files[frm] else [];
        files := files[frm := chunks + [payload]];
      }
      log := log + [Delivery(kind, frm, payload)];
    }

    /**
     * `process_segment`.  A segment without `seq` makes the comparison
     * `offset > expected_seq` raise before any ACK: nothing changes and no ACK
     * is produced (`None`).
     */
    method ProcessSegment(offset: Option<int>, kind: Kind, frm: Name, payload: Bytes, meta: Option<nat>) returns (ack: Option<AckFrame>)
      requires Valid()
      modifies this, sender
      ensures Valid()
      ensures offset.None? ==> ack.None? && State() == old(State()) && sender.State() == old(sender.State())
      ensures offset.Some? ==>
        && State() == Received(old(State()), offset.value, kind, frm, payload, meta)
        && ack == Some(AckFrame(myname, expectedSeq, RECV_RWND))
        && sender.State() == AckHandled(old(sender.State()), expectedSeq, Some(RECV_RWND))
    {
      if offset.None? {
        return None;
      }
      ReceivedFacts(State(), offset.value, kind, frm, payload, meta);
      var n := offset.value;
      if n == expectedSeq {
        DeliverPayload(kind, frm, payload);
        expectedSeq := Advance(expectedSeq, payload);
        ghost var target := Drain(State(), frm);
        while expectedSeq in buffer
          invariant Drain(State(), frm) == target
          invariant sender.State() == old(sender.State())
          decreases |buffer|
        {
          var st := buffer[expectedSeq];
          buffer := buffer - {expectedSeq};
          DeliverPayload(st.kind, frm, st.payload);
          expectedSeq := Advance(expectedSeq, st.payload);
        }
      } else if n > expectedSeq {
        buffer := buffer[n := Stored(payload, kind, meta)];
      }
      ack := Some(AckFrame(myname, expectedSeq, RECV_RWND));
      sender.HandleAck(expectedSeq, Some(RECV_RWND));
    }
  }
}
