/**
 * The browser client's chunked file transfer (frontend/src/App.jsx): the
 * receive-side reassembly of FILE_CHUNK frames with a contiguous cumulative
 * ACK, the sender-side ACK bookkeeping with duplicate-ACK fast retransmit,
 * the congestion-window gate of the periodic sender loop, and the slicing
 * of a file into fixed-size chunks.
 *
 * Chunk payloads are the decoded bytes (base64 is not modelled).  The
 * congestion window is a `real`, compared and floored as the JavaScript
 * does; the clock `Date.now()` is the parameter `now`.
 */
module FileTransfer {
  import opened Common

  type Name = string
  type TransferId = string

  const INITIAL_CWND: real := 1.0
  const INITIAL_SSTHRESH: int := 64
  const CHUNK_SIZE: nat := 64 * 1024

  /** JavaScript `a || b` over optional strings: the empty string is falsy. */
  function Or(a: Option<string>, b: Option<string>): Option<string>
  {
    if a.Some? && a.value != "" then a else b
  }

  /** `x || null` for an optional name: empty strings become null. */
  function Named(x: Option<string>): Option<string>
  {
    Or(x, None)
  }

  /** `entry.payloads[i]` is truthy: stored and not the empty base64 string. */
  predicate HasPayload(payloads: map<int, Bytes>, i: int)
  {
    i in payloads && payloads[i] != []
  }

  function RMax(a: real, b: real): real
  {
    if a >= b then a else b
  }

  // ---------------------------------------------------------------------
  // Receive side: the FILE_CHUNK branch (App.jsx:174-229)
  // ---------------------------------------------------------------------

  /** A reassembly record of `transfersRef`. `fname` is the file name from FILE_META, if one arrived. */
  datatype InRecord = InRecord(
    fname: Option<string>,
    chunks: map<int, Bytes>,
    received: nat,
    total: Option<int>,
    from: Option<Name>,
    nextExpected: int)

  /** The record created when a chunk arrives before any FILE_META (with `next_expected` initialised; see `PlaceholderAsWritten`). */
  function Placeholder(from: Option<Name>): InRecord
  {
    InRecord(None, map[], 0, None, from, 0)
  }

  /** Every index below `next_expected` is held and `next_expected` itself is not. */
  ghost predicate Contiguous(t: InRecord)
  {
    && 0 <= t.nextExpected
    && (forall i :: 0 <= i < t.nextExpected ==> i in t.chunks)
    && t.nextExpected !in t.chunks
  }

  function AtOrAbove(chunks: map<int, Bytes>, n: int): set<int>
  {
    set k | k in chunks && k >= n
  }

  lemma AboveShrinks(chunks: map<int, Bytes>, n: int)
    requires n in chunks
    ensures |AtOrAbove(chunks, n + 1)| < |AtOrAbove(chunks, n)|
  {
    assert AtOrAbove(chunks, n + 1) == AtOrAbove(chunks, n) - {n};
  }

  /** The `while (t.chunks.has(t.next_expected))` advance: the first index at or after n that is not held. */
  function NextMissing(chunks: map<int, Bytes>, n: int): int
    decreases |AtOrAbove(chunks, n)|
  {
    if n in chunks then
      AboveShrinks(chunks, n);
      NextMissing(chunks, n + 1)
    else n
  }

  lemma {:induction false} NextMissingFacts(chunks: map<int, Bytes>, n: int)
    ensures NextMissing(chunks, n) >= n
    ensures forall i :: n <= i < NextMissing(chunks, n) ==> i in chunks
    ensures NextMissing(chunks, n) !in chunks
    decreases |AtOrAbove(chunks, n)|
  {
    if n in chunks {
      AboveShrinks(chunks, n);
      NextMissingFacts(chunks, n + 1);
    }
  }

  /** Store chunk `idx` (overwriting), count it, adopt a truthy `total_chunks` if none is known, then advance. */
  function ChunkStored(t: InRecord, idx: int, payload: Bytes, totalChunks: Option<int>): InRecord
  {
    var t1 := t.(chunks := t.chunks[idx := payload], received := t.received + 1);
    var t2 := if t1.total.None? && totalChunks.Some? && totalChunks.value != 0 then t1.(total := totalChunks) else t1;
    t2.(nextExpected := NextMissing(t2.chunks, t2.nextExpected))
  }

  /**
   * Storing a chunk keeps every other chunk, holds the new bytes at `idx`,
   * counts duplicates too, never moves `next_expected` back and keeps the
   * contiguity invariant.
   */
  lemma ChunkStoredFacts(t: InRecord, idx: int, payload: Bytes, totalChunks: Option<int>)
    requires Contiguous(t)
    ensures var t' := ChunkStored(t, idx, payload, totalChunks);
      && Contiguous(t')
      && t'.chunks == t.chunks[idx := payload]
      && t'.received == t.received + 1
      && t'.nextExpected >= t.nextExpected
      && (idx == t.nextExpected ==> t'.nextExpected > t.nextExpected)
      && (t.total.Some? ==> t'.total == t.total)
  {
    var t1 := t.(chunks := t.chunks[idx := payload]);
    NextMissingFacts(t1.chunks, t.nextExpected);
  }

  datatype Completion = Pending | MissingChunk(index: int) | Assembled(parts: seq<Bytes>)

  /** The assembly loop `for (i = 0; i < total; i++)`: collect parts in index order, stop at the first absent index. */
  function Assemble(chunks: map<int, Bytes>, i: int, total: int, parts: seq<Bytes>): Completion
    decreases total - i
  {
    if i >= total then Assembled(parts)
    else if i !in chunks then MissingChunk(i)
    else Assemble(chunks, i + 1, total, parts + [chunks[i]])
  }

  /** `t.total != null && t.chunks.size >= t.total` decides whether assembly is tried. */
  function Completed(t: InRecord): Completion
  {
    if t.total.Some? && |t.chunks| >= t.total.value then Assemble(t.chunks, 0, t.total.value, [])
    else Pending
  }

  lemma {:induction false} AssembleFacts(chunks: map<int, Bytes>, i: int, total: int, parts: seq<Bytes>)
    requires 0 <= i && |parts| == i
    requires forall j :: 0 <= j < i ==> j in chunks && parts[j] == chunks[j]
    ensures var c := Assemble(chunks, i, total, parts);
      && (c.Assembled? ==> |c.parts| == Max(i, total) && forall j :: 0 <= j < |c.parts| ==> j in chunks && c.parts[j] == chunks[j])
      && (c.MissingChunk? ==> i <= c.index < total && c.index !in chunks && forall j :: 0 <= j < c.index ==> j in chunks)
      && !c.Pending?
    decreases total - i
  {
    if i < total && i in chunks {
      AssembleFacts(chunks, i + 1, total, parts + [chunks[i]]);
    }
  }

  /**
   * Completion: with `total` known and at least that many chunks held, the
   * file is chunks 0..total-1 in index order, unless some index in that
   * range is absent (extra or out-of-range indices count toward the size),
   * in which case the first absent one is reported.
   */
  lemma CompletedFacts(t: InRecord)
    ensures var c := Completed(t);
      && (c.Pending? <==> t.total.None? || |t.chunks| < t.total.value)
      && (c.Assembled? ==>
            (&& t.total.Some? && |c.parts| == Max(0, t.total.value)
             && forall j :: 0 <= j < |c.parts| ==> j in t.chunks && c.parts[j] == t.chunks[j]))
      && (c.MissingChunk? ==>
            (&& t.total.Some? && 0 <= c.index < t.total.value && c.index !in t.chunks
             && forall j :: 0 <= j < c.index ==> j in t.chunks))
  {
    if t.total.Some? && |t.chunks| >= t.total.value {
      AssembleFacts(t.chunks, 0, t.total.value, []);
    }
  }

  // ---------------------------------------------------------------------
  // Send side: ACK bookkeeping (App.jsx:55-131)
  // ---------------------------------------------------------------------

  /** An outgoing transfer of `sentTransfersRef` with its congestion state `cc` (RTT fields omitted). */
  datatype OutRecord = OutRecord(
    fname: string,
    size: nat,
    totalChunks: int,
    ackedUpTo: int,
    payloads: map<int, Bytes>,
    sentAt: map<int, real>,
    to: Option<Name>,
    room: Option<Name>,
    nextToSend: int,
    cwnd: real,
    ssthresh: int,
    inFlight: set<int>,
    lastAck: int,
    dupAcks: nat)

  /** A FILE_CHUNK frame put on the socket. */
  datatype ChunkFrame = ChunkFrame(from: Name, to: Option<Name>, room: Option<Name>, tid: TransferId, index: int, total: int, payload: Bytes)

  datatype AckResult = AckResult(entry: OutRecord, resend: Option<ChunkFrame>)

  /** `msg.ack || 0`. */
  function AckValue(ack: Option<int>): int
  {
    if ack.Some? then ack.value else 0
  }

  function Without<V>(m: map<int, V>, lo: int, hi: int): map<int, V>
  {
    map k | k in m && !(lo <= k < hi) :: m[k]
  }

  function Outside(s: set<int>, lo: int, hi: int): set<int>
  {
    set k | k in s && !(lo <= k < hi)
  }

  /** One turn of the deletion loop `for (i = prevAck; i < newAck; i++)`. */
  lemma WithoutStep<V>(m: map<int, V>, s: set<int>, lo: int, i: int)
    requires lo <= i
    ensures Without(m, lo, i + 1) == Without(m, lo, i) - {i}
    ensures Outside(s, lo, i + 1) == Outside(s, lo, i) - {i}
  {
  }

  /** The defensive cleanup loop: drop every payload (and its send time) below `acked_up_to`. */
  function Cleaned(e: OutRecord): OutRecord
  {
    e.(payloads := map k | k in e.payloads && k >= e.ackedUpTo :: e.payloads[k],
       sentAt := map k | k in e.sentAt && (k !in e.payloads || k >= e.ackedUpTo) :: e.sentAt[k])
  }

  /** The congestion-window growth on an advancing ACK: slow start adds the newly acked count, avoidance adds count/cwnd. */
  function Grown(cwnd: real, ssthresh: int, acked: int): real
  {
    if cwnd < ssthresh as real then cwnd + acked as real
    else cwnd + acked as real * (1.0 / RMax(1.0, cwnd))
  }

  /** The ACK branch for an existing outgoing transfer: advance or duplicate, then the cleanup loop. */
  function AckApplied(from: Name, tid: TransferId, e: OutRecord, ack: Option<int>, now: real): AckResult
  {
    var r := AckBranch(from, tid, e, ack, now);
    AckResult(Cleaned(r.entry), r.resend)
  }

  /** The advancing and duplicate branches of the ACK handler, before the cleanup loop. */
  function AckBranch(from: Name, tid: TransferId, e: OutRecord, ack: Option<int>, now: real): AckResult
  {
    var prev := e.ackedUpTo;
    var newAck := Max(prev, AckValue(ack));
    if newAck > prev then
      AckResult(e.(inFlight := Outside(e.inFlight, prev, newAck),
                   payloads := Without(e.payloads, prev, newAck),
                   sentAt := Without(e.sentAt, prev, newAck),
                   cwnd := Grown(e.cwnd, e.ssthresh, newAck - prev),
                   dupAcks := 0, lastAck := newAck, ackedUpTo := newAck), None)
    else if e.dupAcks + 1 >= 3 then
      var ss := Max(1, (e.cwnd / 2.0).Floor);
      var e1 := e.(dupAcks := e.dupAcks + 1, ssthresh := ss, cwnd := (ss + 3) as real);
      if HasPayload(e.payloads, newAck) then
        AckResult(e1.(sentAt := e1.sentAt[newAck := now]),
                  Some(ChunkFrame(from, Named(e.to), Named(e.room), tid, newAck, e.totalChunks, e.payloads[newAck])))
      else AckResult(e1, None)
    else AckResult(e.(dupAcks := e.dupAcks + 1), None)
  }

  /** The standing invariant of an outgoing entry: cwnd at least one chunk, nothing stored below the ACK point. */
  ghost predicate OutInv(e: OutRecord)
  {
    && e.cwnd >= 1.0
    && e.ssthresh >= 1
    && 0 <= e.ackedUpTo
    && (forall k :: k in e.payloads ==> k >= e.ackedUpTo)
  }

  /**
   * An advancing ACK moves `acked_up_to` to max(acked_up_to, ack), drops
   * the newly acked indices from in-flight, payloads and send times, grows
   * cwnd by the newly acked count and resets the duplicate counter; every
   * payload and send time at or above the new ACK point survives, and the
   * send cursor and chunk count stay; it never resends.
   */
  lemma AdvancingAckFacts(from: Name, tid: TransferId, e: OutRecord, ack: Option<int>, now: real)
    requires OutInv(e) && AckValue(ack) > e.ackedUpTo
    ensures var r := AckApplied(from, tid, e, ack, now);
      && r.entry.ackedUpTo == AckValue(ack)
      && (forall i :: e.ackedUpTo <= i < AckValue(ack) ==>
            i !in r.entry.inFlight && i !in r.entry.payloads && i !in r.entry.sentAt)
      && (forall i :: i in e.inFlight && !(e.ackedUpTo <= i < AckValue(ack)) ==> i in r.entry.inFlight)
      && (forall k :: k in e.payloads && k >= AckValue(ack) ==>
            k in r.entry.payloads && r.entry.payloads[k] == e.payloads[k])
      && (forall k :: k in e.sentAt && k >= AckValue(ack) ==>
            k in r.entry.sentAt && r.entry.sentAt[k] == e.sentAt[k])
      && r.entry.nextToSend == e.nextToSend
      && r.entry.totalChunks == e.totalChunks
      && r.entry.dupAcks == 0
      && r.entry.lastAck == AckValue(ack)
      && r.entry.cwnd == Grown(e.cwnd, e.ssthresh, AckValue(ack) - e.ackedUpTo)
      && r.entry.cwnd > e.cwnd
      && r.entry.ssthresh == e.ssthresh
      && r.resend.None?
      && OutInv(r.entry)
  {
  }

  /**
   * A non-advancing ACK counts a duplicate; from the third on, every one
   * halves into ssthresh (at least 1), sets cwnd to ssthresh + 3 and resends
   * the chunk at the ACK point, restamping its send time, when its payload is
   * still held; nothing else in the entry changes.
   */
  lemma DuplicateAckFacts(from: Name, tid: TransferId, e: OutRecord, ack: Option<int>, now: real)
    requires OutInv(e) && AckValue(ack) <= e.ackedUpTo
    ensures var r := AckApplied(from, tid, e, ack, now);
      && r.entry.ackedUpTo == e.ackedUpTo
      && r.entry.dupAcks == e.dupAcks + 1
      && r.entry.inFlight == e.inFlight
      && r.entry.payloads == e.payloads
      && r.entry.nextToSend == e.nextToSend && r.entry.totalChunks == e.totalChunks
      && r.entry.lastAck == e.lastAck
      && r.entry.sentAt == (if r.resend.Some? then e.sentAt[e.ackedUpTo := now] else e.sentAt)
      && (e.dupAcks + 1 < 3 ==> r.entry.cwnd == e.cwnd && r.entry.ssthresh == e.ssthresh && r.resend.None?)
      && (e.dupAcks + 1 >= 3 ==>
            && r.entry.ssthresh == Max(1, (e.cwnd / 2.0).Floor)
            && r.entry.cwnd == (r.entry.ssthresh + 3) as real
            && (r.resend.Some? <==> HasPayload(e.payloads, e.ackedUpTo))
            && (r.resend.Some? ==>
                  r.resend.value == ChunkFrame(from, Named(e.to), Named(e.room), tid, e.ackedUpTo, e.totalChunks, e.payloads[e.ackedUpTo])))
      && OutInv(r.entry)
  {
    var ss := Max(1, (e.cwnd / 2.0).Floor);
    assert (ss + 3) as real >= 1.0;
  }

  /** After any ACK, `acked_up_to` has not decreased, no payload is held below it, and the entry invariant holds. */
  lemma AckMonotone(from: Name, tid: TransferId, e: OutRecord, ack: Option<int>, now: real)
    requires OutInv(e)
    ensures var r := AckApplied(from, tid, e, ack, now);
      && r.entry.ackedUpTo >= e.ackedUpTo
      && (forall k :: k in r.entry.payloads ==> k >= r.entry.ackedUpTo)
      && OutInv(r.entry)
  {
    if AckValue(ack) > e.ackedUpTo {
      AdvancingAckFacts(from, tid, e, ack, now);
    } else {
      DuplicateAckFacts(from, tid, e, ack, now);
    }
  }

  // ---------------------------------------------------------------------
  // Send side: the sender loop's window gate (App.jsx:277-303)
  // ---------------------------------------------------------------------

  datatype PumpResult = PumpResult(entry: OutRecord, frames: seq<ChunkFrame>)

  /** `Math.max(1, Math.floor(cwnd))`. */
  function Window(e: OutRecord): int
  {
    Max(1, e.cwnd.Floor)
  }

  /** The loop condition together with the `if (!payload) break` test. */
  predicate CanSend(e: OutRecord, window: int)
  {
    |e.inFlight| < window && e.nextToSend < e.totalChunks && HasPayload(e.payloads, e.nextToSend)
  }

  /** The frame for chunk `nextToSend`; `to` and `room` only when truthy. */
  function FrameOf(from: Name, tid: TransferId, e: OutRecord): ChunkFrame
    requires e.nextToSend in e.payloads
  {
    ChunkFrame(from, Named(e.to), Named(e.room), tid, e.nextToSend, e.totalChunks, e.payloads[e.nextToSend])
  }

  /** The entry after chunk `nextToSend` went out: stamped, in flight, `nextToSend` advanced. */
  function Stamped(e: OutRecord, now: real): OutRecord
  {
    e.(sentAt := e.sentAt[e.nextToSend := now], inFlight := e.inFlight + {e.nextToSend}, nextToSend := e.nextToSend + 1)
  }

  /** The `while (inFlight.size < cwndVal && nextToSend < total_chunks)` loop. */
  function PumpLoop(from: Name, tid: TransferId, e: OutRecord, window: int, now: real): PumpResult
    decreases e.totalChunks - e.nextToSend
  {
    if CanSend(e, window) then
      var rest := PumpLoop(from, tid, Stamped(e, now), window, now);
      PumpResult(rest.entry, [FrameOf(from, tid, e)] + rest.frames)
    else PumpResult(e, [])
  }

  function Pumped(from: Name, tid: TransferId, e: OutRecord, now: real): PumpResult
  {
    PumpLoop(from, tid, e, Window(e), now)
  }

  /**
   * One pass of the sender loop sends the chunks nextToSend, nextToSend+1, ...
   * in order, each with its stored payload, and changes nothing but the
   * send times, the in-flight set and `nextToSend`.
   */
  lemma {:induction false} PumpSends(from: Name, tid: TransferId, e: OutRecord, window: int, now: real)
    ensures var p := PumpLoop(from, tid, e, window, now);
      && p.entry.nextToSend == e.nextToSend + |p.frames|
      && (forall j :: 0 <= j < |p.frames| ==>
            && p.frames[j].index == e.nextToSend + j
            && HasPayload(e.payloads, e.nextToSend + j)
            && p.frames[j].payload == e.payloads[e.nextToSend + j])
      && p.entry == e.(sentAt := p.entry.sentAt, inFlight := p.entry.inFlight, nextToSend := p.entry.nextToSend)
    decreases e.totalChunks - e.nextToSend
  {
    if CanSend(e, window) {
      var e1 := Stamped(e, now);
      PumpSends(from, tid, e1, window, now);
      var rest := PumpLoop(from, tid, e1, window, now);
      var p := PumpLoop(from, tid, e, window, now);
      assert p.frames == [FrameOf(from, tid, e)] + rest.frames;
      forall j | 0 < j < |p.frames|
        ensures p.frames[j] == rest.frames[j - 1]
      {
      }
    }
  }

  /** Every chunk sent in a pass is in flight and stamped `now`. */
  lemma {:induction false} PumpStamps(from: Name, tid: TransferId, e: OutRecord, window: int, now: real)
    ensures var p := PumpLoop(from, tid, e, window, now);
      && p.entry.nextToSend >= e.nextToSend
      && (forall i :: e.nextToSend <= i < p.entry.nextToSend ==>
            i in p.entry.inFlight && i in p.entry.sentAt && p.entry.sentAt[i] == now)
    decreases e.totalChunks - e.nextToSend
  {
    if CanSend(e, window) {
      var e1 := Stamped(e, now);
      PumpStamps(from, tid, e1, window, now);
      PumpKeeps(from, tid, e1, window, now);
      assert PumpLoop(from, tid, e, window, now).entry == PumpLoop(from, tid, e1, window, now).entry;
    }
  }

  /** A pass keeps every chunk already in flight and every send time outside the chunks it sends. */
  lemma {:induction false} PumpKeeps(from: Name, tid: TransferId, e: OutRecord, window: int, now: real)
    ensures var p := PumpLoop(from, tid, e, window, now);
      && p.entry.nextToSend >= e.nextToSend
      && e.inFlight <= p.entry.inFlight
      && (forall k :: k in e.sentAt && !(e.nextToSend <= k < p.entry.nextToSend) ==>
            k in p.entry.sentAt && p.entry.sentAt[k] == e.sentAt[k])
    decreases e.totalChunks - e.nextToSend
  {
    if CanSend(e, window) {
      var e1 := Stamped(e, now);
      PumpKeeps(from, tid, e1, window, now);
      assert PumpLoop(from, tid, e, window, now).entry == PumpLoop(from, tid, e1, window, now).entry;
    }
  }

  /**
   * The window gate: a pass never lets in-flight grow past the window, and
   * it stops only at the window, at the last chunk, or at a chunk whose
   * payload is not there yet.
   */
  lemma {:induction false} PumpGate(from: Name, tid: TransferId, e: OutRecord, window: int, now: real)
    ensures var p := PumpLoop(from, tid, e, window, now);
      && (|e.inFlight| <= window ==> |p.entry.inFlight| <= window)
      && !CanSend(p.entry, window)
    decreases e.totalChunks - e.nextToSend
  {
    if CanSend(e, window) {
      var e1 := Stamped(e, now);
      PumpGate(from, tid, e1, window, now);
      assert |e.inFlight + {e.nextToSend}| <= |e.inFlight| + 1;
      assert PumpLoop(from, tid, e, window, now).entry == PumpLoop(from, tid, e1, window, now).entry;
    }
  }

  // ---------------------------------------------------------------------
  // Send side: file slicing in sendFile (App.jsx:332-371)
  // ---------------------------------------------------------------------

  /** `Math.ceil(size / CHUNK_SIZE)`. */
  function ChunkCount(size: nat): nat
  {
    (size + CHUNK_SIZE - 1) / CHUNK_SIZE
  }

  /** Chunk i: bytes [i*CHUNK_SIZE, min((i+1)*CHUNK_SIZE, size)). */
  function Slice(file: Bytes, i: nat): Bytes
    requires i < ChunkCount(|file|)
  {
    file[i * CHUNK_SIZE .. Min((i + 1) * CHUNK_SIZE, |file|)]
  }

  /** The first n chunks concatenated in index order. */
  function Joined(file: Bytes, n: nat): Bytes
    requires n <= ChunkCount(|file|)
  {
    if n == 0 then [] else Joined(file, n - 1) + Slice(file, n - 1)
  }

  /** Every chunk is non-empty and at most CHUNK_SIZE bytes, and ChunkCount chunks exactly cover the file. */
  lemma ChunkCountFacts(file: Bytes)
    ensures ChunkCount(|file|) * CHUNK_SIZE >= |file|
    ensures ChunkCount(|file|) == 0 || (ChunkCount(|file|) - 1) * CHUNK_SIZE < |file|
    ensures forall i :: 0 <= i < ChunkCount(|file|) ==> 0 < |Slice(file, i)| <= CHUNK_SIZE
  {
  }

  lemma {:induction false} JoinedPrefix(file: Bytes, n: nat)
    requires n <= ChunkCount(|file|)
    ensures Joined(file, n) == file[..Min(n * CHUNK_SIZE, |file|)]
  {
    if n > 0 {
      JoinedPrefix(file, n - 1);
      assert file[..(n - 1) * CHUNK_SIZE] + file[(n - 1) * CHUNK_SIZE .. Min(n * CHUNK_SIZE, |file|)]
          == file[..Min(n * CHUNK_SIZE, |file|)];
    }
  }

  /** The chunks partition the file: concatenated in index order they give it back exactly. */
  lemma ChunksPartitionFile(file: Bytes)
    ensures Joined(file, ChunkCount(|file|)) == file
  {
    ChunkCountFacts(file);
    JoinedPrefix(file, ChunkCount(|file|));
  }

  // ---------------------------------------------------------------------
  // The placeholder record as written (App.jsx:181)
  // ---------------------------------------------------------------------

  /**
   * The part of a reassembly record the ACK depends on, with `next_expected`
   * optional: the placeholder written at App.jsx:181 leaves it undefined.
   */
  datatype RawRecord = RawRecord(chunks: map<int, Bytes>, nextExpected: Option<int>)

  function PlaceholderAsWritten(): RawRecord
  {
    RawRecord(map[], None)
  }

  /**
   * Storing a chunk as written: `t.chunks.has(undefined)` is false, so an
   * undefined `next_expected` is never advanced and stays undefined.
   */
  function RawChunkStored(t: RawRecord, idx: int, payload: Bytes): RawRecord
  {
    var c := t.chunks[idx := payload];
    RawRecord(c, if t.nextExpected.Some? then Some(NextMissing(c, t.nextExpected.value)) else None)
  }

  /** The `ack` field of the ACK frame: `JSON.stringify` drops an undefined field. */
  function AckField(t: RawRecord): Option<int>
  {
    t.nextExpected
  }

  /**
   * As written: once chunk 0 has arrived before its FILE_META, the ACK
   * carries no `ack`, the sender reads it as 0, and a sender waiting for
   * chunk 0 counts a duplicate instead of advancing.
   */
  lemma PlaceholderAckLost(from: Name, tid: TransferId, e: OutRecord, payload: Bytes, now: real)
    requires OutInv(e) && e.ackedUpTo == 0
    ensures var t := RawChunkStored(PlaceholderAsWritten(), 0, payload);
      && 0 in t.chunks
      && AckField(t).None?
      && AckApplied(from, tid, e, AckField(t), now).entry.ackedUpTo == 0
      && AckApplied(from, tid, e, AckField(t), now).entry.dupAcks == e.dupAcks + 1
  {
    var t := RawChunkStored(PlaceholderAsWritten(), 0, payload);
    DuplicateAckFacts(from, tid, e, AckField(t), now);
  }

  /** The placeholder stays without `next_expected` whatever chunks follow. */
  lemma {:induction false} PlaceholderNeverAcks(t: RawRecord, arrivals: seq<(int, Bytes)>)
    requires t.nextExpected.None?
    ensures StoreAll(t, arrivals).nextExpected.None?
    decreases |arrivals|
  {
    if arrivals != [] {
      PlaceholderNeverAcks(RawChunkStored(t, arrivals[0].0, arrivals[0].1), arrivals[1..]);
    }
  }

  function StoreAll(t: RawRecord, arrivals: seq<(int, Bytes)>): RawRecord
    decreases |arrivals|
  {
    if arrivals == [] then t else StoreAll(RawChunkStored(t, arrivals[0].0, arrivals[0].1), arrivals[1..])
  }

  /**
   * Corrected (`Placeholder` starts `next_expected` at 0): chunk 0 arriving
   * first yields an ACK of at least 1, which advances a sender waiting for it.
   */
  lemma PlaceholderAckAdvances(from: Name, to: Option<Name>, tid: TransferId, e: OutRecord,
                               payload: Bytes, totalChunks: Option<int>, now: real)
    requires OutInv(e) && e.ackedUpTo == 0
    ensures var t := ChunkStored(Placeholder(to), 0, payload, totalChunks);
      && Contiguous(t)
      && t.nextExpected >= 1
      && AckApplied(from, tid, e, Some(t.nextExpected), now).entry.ackedUpTo == t.nextExpected
  {
    ChunkStoredFacts(Placeholder(to), 0, payload, totalChunks);
    var t := ChunkStored(Placeholder(to), 0, payload, totalChunks);
    AdvancingAckFacts(from, tid, e, Some(t.nextExpected), now);
  }

  // ---------------------------------------------------------------------
  // The client's transfer tables
  // ---------------------------------------------------------------------

  /** The cumulative ACK frame sent back for a chunk. */
  datatype ChunkAck = ChunkAck(from: Name, to: Option<Name>, tid: TransferId, ack: int)

  /** The FILE_META frame announcing an outgoing file. */
  datatype MetaFrame = MetaFrame(from: Name, to: Option<Name>, room: Option<Name>, tid: TransferId, fname: string, size: nat, total: nat)

  /** Chunk i of the file for every i below ChunkCount. */
  function Slices(file: Bytes): map<int, Bytes>
  {
    SlicesBelow(file, ChunkCount(|file|))
  }

  /** The entry `sendFile` registers once every chunk is stored. */
  function Registered(file: Bytes, fname: string, to: Option<Name>, room: Option<Name>): OutRecord
  {
    OutRecord(fname, |file|, ChunkCount(|file|), 0, Slices(file), map[], to, room, 0,
              INITIAL_CWND, INITIAL_SSTHRESH, {}, 0, 0)
  }

  /** A registered transfer holds exactly chunks 0..total-1, and they concatenate to the file. */
  lemma RegisteredFacts(file: Bytes, fname: string, to: Option<Name>, room: Option<Name>)
    ensures var e := Registered(file, fname, to, room);
      && OutInv(e)
      && e.totalChunks == ChunkCount(|file|)
      && (forall i :: i in e.payloads <==> 0 <= i < e.totalChunks)
      && (forall i :: 0 <= i < e.totalChunks ==> HasPayload(e.payloads, i) && |e.payloads[i]| <= CHUNK_SIZE)
      && (forall i :: 0 <= i < e.totalChunks ==> e.payloads[i] == Slice(file, i))
      && Joined(file, ChunkCount(|file|)) == file
  {
    ChunkCountFacts(file);
    ChunksPartitionFile(file);
  }

  /** The payloads kept while the cleanup loop still has `pending` keys to visit. */
  function KeptPayloads(e: OutRecord, pending: set<int>): map<int, Bytes>
  {
    map k | k in e.payloads && (k in pending || k >= e.ackedUpTo) :: e.payloads[k]
  }

  /** The send times kept while the cleanup loop still has `pending` keys to visit. */
  function KeptSentAt(e: OutRecord, pending: set<int>): map<int, real>
  {
    map k | k in e.sentAt && (k !in e.payloads || k in pending || k >= e.ackedUpTo) :: e.sentAt[k]
  }

  lemma CleanupStep(e: OutRecord, pending: set<int>, k: int)
    requires k in pending && pending <= e.payloads.Keys
    ensures KeptPayloads(e, pending - {k})
      == (if k < e.ackedUpTo then KeptPayloads(e, pending) - {k} else KeptPayloads(e, pending))
    ensures KeptSentAt(e, pending - {k})
      == (if k < e.ackedUpTo then KeptSentAt(e, pending) - {k} else KeptSentAt(e, pending))
  {
  }

  /** The defensive cleanup loop over the stored payload keys. */
  method Cleanup(e: OutRecord) returns (c: OutRecord)
    ensures c == Cleaned(e)
  {
    var payloads := e.payloads;
    var sentAt := e.sentAt;
    var pending := e.payloads.Keys;
    while pending != {}
      invariant pending <= e.payloads.Keys
      invariant payloads == KeptPayloads(e, pending)
      invariant sentAt == KeptSentAt(e, pending)
      decreases |pending|
    {
      ghost var w := Element(pending);
      var k :| k in pending;
      CleanupStep(e, pending, k);
      if k < e.ackedUpTo {
        payloads := payloads - {k};
        sentAt := sentAt - {k};
      }
      pending := pending - {k};
    }
    assert payloads == KeptPayloads(e, {}) && sentAt == KeptSentAt(e, {});
    c := e.(payloads := payloads, sentAt := sentAt);
  }

  /** The slicing loop of `sendFile`: store chunk i for every i below the chunk count. */
  method SliceFile(file: Bytes) returns (payloads: map<int, Bytes>)
    ensures payloads == Slices(file)
  {
    var total := ChunkCount(|file|);
    payloads := map[];
    var i := 0;
    while i < total
      invariant 0 <= i <= total
      invariant payloads == SlicesBelow(file, i)
    {
      var start := i * CHUNK_SIZE;
      var end := Min((i + 1) * CHUNK_SIZE, |file|);
      SlicesBelowStep(file, i);
      payloads := payloads[i := file[start..end]];
      i := i + 1;
    }
  }

  function SlicesBelow(file: Bytes, n: int): map<int, Bytes>
    requires n <= ChunkCount(|file|)
  {
    map i | 0 <= i < n :: Slice(file, i)
  }

  lemma SlicesBelowStep(file: Bytes, n: nat)
    requires n < ChunkCount(|file|)
    ensures SlicesBelow(file, n + 1) == SlicesBelow(file, n)[n := Slice(file, n)]
  {
  }

  /**
   * `transfersRef` (incoming reassembly) and `sentTransfersRef` (outgoing
   * transfers) of one browser client named `myname`.
   */
  class FileTransfers {
    const myname: Name
    var incoming: map<TransferId, InRecord>
    var outgoing: map<TransferId, OutRecord>

    ghost predicate Valid()
      reads this
    {
      && (forall tid :: tid in incoming ==> Contiguous(incoming[tid]))
      && (forall tid :: tid in outgoing ==> OutInv(outgoing[tid]))
    }

    constructor(name: Name)
      ensures Valid() && myname == name && incoming == map[] && outgoing == map[]
    {
      myname := name;
      incoming := map[];
      outgoing := map[];
    }

    /**
     * The FILE_CHUNK branch: store the chunk in its record (a placeholder
     * when none exists), advance `next_expected`, send the cumulative ACK
     * to the chunk's sender, and assemble and drop the record once complete.
     */
    method OnFileChunk(msgTid: Option<string>, metaTid: Option<string>, idx: Option<int>,
                       from: Option<Name>, payload: Bytes, totalChunks: Option<int>)
      returns (ack: Option<ChunkAck>, done: Completion)
      requires Valid()
      modifies this
      ensures Valid() && outgoing == old(outgoing)
      ensures var tid := Or(msgTid, metaTid);
        if tid.None? || idx.None? then incoming == old(incoming) && ack.None? && done.Pending?
        else
          var t := ChunkStored(if tid.value in old(incoming) then old(incoming)[tid.value] else Placeholder(from),
                               idx.value, payload, totalChunks);
          && ack == Some(ChunkAck(myname, from, tid.value, t.nextExpected))
          && done == Completed(t)
          && incoming == (if done.Assembled? then old(incoming) - {tid.value} else old(incoming)[tid.value := t])
    {
      var tid := Or(msgTid, metaTid);
      if tid.None? || idx.None? {
        ack := None;
        done := Pending;
        return;
      }
      var t0 := if tid.value in incoming then incoming[tid.value] else Placeholder(from);
      ChunkStoredFacts(t0, idx.value, payload, totalChunks);
      var t := StoreChunk(t0, idx.value, payload, totalChunks);
      incoming := incoming[tid.value := t];
      ack := Some(ChunkAck(myname, from, tid.value, t.nextExpected));
      done := Assembly(t);
      if done.Assembled? {
        incoming := incoming - {tid.value};
      }
    }

    /** Store the chunk in the record, count it, adopt `total_chunks`, and advance `next_expected`. */
    method StoreChunk(t0: InRecord, idx: int, payload: Bytes, totalChunks: Option<int>) returns (t: InRecord)
      ensures t == ChunkStored(t0, idx, payload, totalChunks)
    {
      t := t0.(chunks := t0.chunks[idx := payload], received := t0.received + 1);
      if t.total.None? && totalChunks.Some? && totalChunks.value != 0 {
        t := t.(total := totalChunks);
      }
      var next := t.nextExpected;
      while next in t.chunks
        invariant NextMissing(t.chunks, next) == NextMissing(t.chunks, t.nextExpected)
        decreases |AtOrAbove(t.chunks, next)|
      {
        AboveShrinks(t.chunks, next);
        next := next + 1;
      }
      t := t.(nextExpected := next);
    }

    /** The completion check and the assembly loop. */
    method Assembly(t: InRecord) returns (done: Completion)
      ensures done == Completed(t)
    {
      done := Pending;
      if t.total.Some? && |t.chunks| >= t.total.value {
        var total := t.total.value;
        var parts: seq<Bytes> := [];
        var i := 0;
        while i < total
          invariant 0 <= i
          invariant Assemble(t.chunks, i, total, parts) == Assemble(t.chunks, 0, total, [])
        {
          if i !in t.chunks {
            done := MissingChunk(i);
            return;
          }
          parts := parts + [t.chunks[i]];
          i := i + 1;
        }
        done := Assembled(parts);
      }
    }

    /**
     * The ACK branch: for a known outgoing transfer, apply the cumulative
     * ACK (advance, or count a duplicate and maybe fast-retransmit), then
     * drop every stored payload below the ACK point.
     */
    method OnAck(tid: Option<string>, ack: Option<int>, now: real) returns (resend: Option<ChunkFrame>)
      requires Valid()
      modifies this
      ensures Valid() && incoming == old(incoming)
      ensures if tid.Some? && tid.value != "" && tid.value in old(outgoing) then
          var r := AckApplied(myname, tid.value, old(outgoing)[tid.value], ack, now);
          outgoing == old(outgoing)[tid.value := r.entry] && resend == r.resend
        else outgoing == old(outgoing) && resend.None?
    {
      resend := None;
      if tid.None? || tid.value == "" || tid.value !in outgoing {
        return;
      }
      var e0 := outgoing[tid.value];
      AckMonotone(myname, tid.value, e0, ack, now);
      var e := AckStep(tid.value, e0, ack, now);
      resend := e.resend;
      var cleaned := Cleanup(e.entry);
      assert cleaned == AckApplied(myname, tid.value, e0, ack, now).entry;
      outgoing := outgoing[tid.value := cleaned];
    }

    /** The branch of the ACK handler before the cleanup loop, on one entry. */
    method AckStep(tid: TransferId, e: OutRecord, ack: Option<int>, now: real) returns (r: AckResult)
      ensures r == AckBranch(myname, tid, e, ack, now)
    {
      var prev := e.ackedUpTo;
      var newAck := Max(prev, AckValue(ack));
      if newAck > prev {
        var inFlight := e.inFlight;
        var payloads := e.payloads;
        var sentAt := e.sentAt;
        var i := prev;
        while i < newAck
          invariant prev <= i <= newAck
          invariant inFlight == Outside(e.inFlight, prev, i)
          invariant payloads == Without(e.payloads, prev, i)
          invariant sentAt == Without(e.sentAt, prev, i)
        {
          WithoutStep(e.payloads, e.inFlight, prev, i);
          WithoutStep(e.sentAt, e.inFlight, prev, i);
          inFlight := inFlight - {i};
          payloads := payloads - {i};
          sentAt := sentAt - {i};
          i := i + 1;
        }
        var cwnd := if e.cwnd < e.ssthresh as real then e.cwnd + (newAck - prev) as real
                    else e.cwnd + (newAck - prev) as real * (1.0 / RMax(1.0, e.cwnd));
        r := AckResult(e.(inFlight := inFlight, payloads := payloads, sentAt := sentAt, cwnd := cwnd,
                          dupAcks := 0, lastAck := newAck, ackedUpTo := newAck), None);
      } else {
        var dup := e.dupAcks + 1;
        r := AckResult(e.(dupAcks := dup), None);
        if dup >= 3 {
          var ss := Max(1, (e.cwnd / 2.0).Floor);
          var e1 := e.(dupAcks := dup, ssthresh := ss, cwnd := (ss + 3) as real);
          r := AckResult(e1, None);
          if HasPayload(e.payloads, newAck) {
            var frame := ChunkFrame(myname, Named(e.to), Named(e.room), tid, newAck, e.totalChunks, e.payloads[newAck]);
            r := AckResult(e1.(sentAt := e1.sentAt[newAck := now]), Some(frame));
          }
        }
      }
    }

    /**
     * The sender loop for one transfer: send chunks in order while fewer
     * than max(1, floor(cwnd)) are in flight and prepared payloads remain.
     */
    method PumpTransfer(tid: TransferId, now: real) returns (frames: seq<ChunkFrame>)
      requires Valid()
      modifies this
      ensures Valid() && incoming == old(incoming)
      ensures if tid in old(outgoing) then
          var p := Pumped(myname, tid, old(outgoing)[tid], now);
          outgoing == old(outgoing)[tid := p.entry] && frames == p.frames
        else outgoing == old(outgoing) && frames == []
    {
      frames := [];
      if tid !in outgoing {
        return;
      }
      var e := outgoing[tid];
      PumpSends(myname, tid, e, Window(e), now);
      var p := PumpLoopMethod(tid, e, now);
      outgoing := outgoing[tid := p.entry];
      frames := p.frames;
    }

    /** The `while` of the sender loop on one entry. */
    method PumpLoopMethod(tid: TransferId, e0: OutRecord, now: real) returns (p: PumpResult)
      ensures p == Pumped(myname, tid, e0, now)
    {
      var window := Max(1, e0.cwnd.Floor);
      var e := e0;
      var sent: seq<ChunkFrame> := [];
      while |e.inFlight| < window && e.nextToSend < e.totalChunks
        invariant PumpLoop(myname, tid, e, window, now).entry == PumpLoop(myname, tid, e0, window, now).entry
        invariant sent + PumpLoop(myname, tid, e, window, now).frames == PumpLoop(myname, tid, e0, window, now).frames
        decreases e.totalChunks - e.nextToSend
      {
        var i := e.nextToSend;
        if !HasPayload(e.payloads, i) {
          break;
        }
        var f := ChunkFrame(myname, Named(e.to), Named(e.room), tid, i, e.totalChunks, e.payloads[i]);
        sent := sent + [f];
        e := e.(sentAt := e.sentAt[i := now], inFlight := e.inFlight + {i}, nextToSend := i + 1);
      }
      p := PumpResult(e, sent);
    }

    /**
     * `sendFile`: refuse without a recipient or room; otherwise register the
     * transfer, announce it with FILE_META and store chunk i for every i
     * below ceil(size / CHUNK_SIZE).  The transfer id is a parameter.
     */
    method SendFile(file: Bytes, fname: string, to: Option<Name>, room: Option<Name>, tid: TransferId)
      returns (meta: Option<MetaFrame>)
      requires Valid()
      modifies this
      ensures Valid() && incoming == old(incoming)
      ensures if Named(to).None? && Named(room).None? then outgoing == old(outgoing) && meta.None?
        else
          && outgoing == old(outgoing)[tid := Registered(file, fname, to, room)]
          && meta == Some(MetaFrame(myname, Named(to), Named(room), tid, fname, |file|, ChunkCount(|file|)))
    {
      if Named(to).None? && Named(room).None? {
        meta := None;
        return;
      }
      var total := ChunkCount(|file|);
      var entry := OutRecord(fname, |file|, total, 0, map[], map[], to, room, 0,
                             INITIAL_CWND, INITIAL_SSTHRESH, {}, 0, 0);
      outgoing := outgoing[tid := entry];
      meta := Some(MetaFrame(myname, Named(to), Named(room), tid, fname, |file|, total));
      var payloads := SliceFile(file);
      RegisteredFacts(file, fname, to, room);
      entry := entry.(payloads := payloads);
      assert entry == Registered(file, fname, to, room);
      outgoing := outgoing[tid := entry];
    }
  }
}
