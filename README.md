# ChatChat2.0 transport, file transfer and relay — a Dafny model

ChatChat2.0 is a chat system with three parts:

- a relay server (`backend/app.py`) that registers named clients, keeps chat rooms and forwards frames;
- a terminal client (`client_tcp.py`) that runs a TCP-like reliable transport over the relay connection. It has a segmenting sender with slow start, congestion avoidance, fast retransmit and a retransmission timeout, plus a reordering receiver that sends cumulative ACKs. Payloads can be XOR-encrypted with a SHA-256 keystream;
- a browser client (`frontend/src/App.jsx`) that sends files as 64 KiB chunks. Each transfer has its own congestion window, cumulative chunk ACKs and fast retransmit.

`backend/flow_control.py` holds the stand-alone congestion, flow-control and retransmit-timer primitives.

The project models these cores, one module per source concern:

| module | file | models |
|---|---|---|
| `Common` | common.dfy | `Option`, bytes, `Max`/`Min` |
| `Congestion` | congestion.dfy | `backend/flow_control.py`, and the cwnd rules shared with the sender |
| `Cipher` | cipher.dfy | `derive_key_bytes`, `encrypt_bytes`, `decrypt_bytes` |
| `TcpSender` | sender.dfy | `Sender`: enqueue, `_try_send`, the timer body, `handle_ack` |
| `TcpReceiver` | receiver.dfy | `Receiver.process_segment`, `_deliver_payload` |
| `FileTransfer` | file_transfer.dfy | App.jsx FILE_CHUNK reassembly, ACK bookkeeping, the sender-loop window gate, `sendFile` slicing |
| `ChatServer` | server.dfy | app.py registration, JOIN, LEAVE, disconnect clean-up, routing |

Objects whose fields the source updates in place are Dafny classes:

- `Sender`, `Receiver`, `CongestionControl`, `FlowControl` and `RetransmitTimer`;
- the two transfer tables of the browser client (`FileTransfers`);
- the server's `clients`/`rooms` globals (`Registry`).

Each class method is specified by a pure transition function of the old state. For example, `State() == AckHandled(old(State()), ack, advRwnd)`. Lemmas then prove what the source promises about those functions. Loops in the source are loops in the model (the send loop, the ACK deletion loops, the drain loop, the keystream loops, the send-window loop, the slicing loop, the clean-up loops). Each is proved equal to a recursive specification function.

Inputs from the outside world are parameters:

- the clock is `now`;
- whether a socket write succeeds is a `Link` value;
- SHA-256 is an arbitrary function `hash` from bytes to a 32-byte digest.

Sequence numbers, windows and counters are unbounded integers. JavaScript numbers in App.jsx are exact `real`s for the per-transfer `cwnd` and integers elsewhere.

Three places where the code's sender differs from a textbook TCP sender, and the model follows the code:

- Unsent bytes count as outstanding (`next_seq - send_base`). So a fresh sender given one MSS or more sends nothing, not even the first segment. A single full-size segment never goes out from a fresh sender. `TcpSender.OversizedWriteStalls` proves this.
- An empty write creates no segment, because the `while i < len(payload)` loop never runs. `TcpSender.EnqueuedFacts` states that the state is unchanged.
- Fast retransmit fires on every duplicate ACK once the count reaches 3 (`cnt >= 3`), not only on the third.

## Model

| member | source | states |
|---|---|---|
| Congestion.AvoidanceStep | backend/flow_control.py:22 | the congestion-avoidance increment `max(1, int(mss*mss/max(1,cwnd)))` is at least 1 and at most one MSS once cwnd ≥ MSS |
| Congestion.ReducedThreshold | backend/flow_control.py:26 | the new ssthresh `max(cwnd // 2, mss)` is at least MSS and at least half of cwnd, and is one of the two |
| Congestion.AckNeverShrinks | backend/flow_control.py:15-22 | an ACK never shrinks cwnd, strictly grows it when MSS > 0, and leaves ssthresh and MSS alone |
| Congestion.AckIncrement | backend/flow_control.py:15-22 | below ssthresh an ACK adds exactly one MSS; at or above it adds between 1 and one MSS |
| Congestion.TimeoutHalves | backend/flow_control.py:24-27 | a timeout sets cwnd to one MSS and ssthresh to half of cwnd, floored at MSS |
| Congestion.RunKeepsFloor | backend/flow_control.py:15-27 | from any starting state whose cwnd and ssthresh are at least MSS, any sequence of ACKs and timeouts keeps both at least MSS |
| Congestion.SlowStartExact | backend/flow_control.py:17-19 | from cwnd = MSS, k ACKs that stay in slow start give cwnd = (k+1)·MSS |
| Congestion.CongestionControl.constructor | backend/flow_control.py:9-13 | the dataclass holds the given cwnd, ssthresh and mss |
| Congestion.CongestionControl.OnAck | backend/flow_control.py:15-22 | the new state is the slow-start / additive-increase step of the old one |
| Congestion.CongestionControl.OnTimeout | backend/flow_control.py:24-27 | the new state is the multiplicative-decrease step of the old one |
| Congestion.FlowControl.constructor | backend/flow_control.py:31-32 | the window is the given byte count |
| Congestion.FlowControl.Advertise | backend/flow_control.py:34-35 | advertises the stored window |
| Congestion.RetransmitTimer.constructor | backend/flow_control.py:40-42 | the timeout is stored; the timer is not started |
| Congestion.RetransmitTimer.Start | backend/flow_control.py:44-45 | records the start time `now` |
| Congestion.RetransmitTimer.Expired | backend/flow_control.py:47-49 | an unstarted timer never expires; a started one expires exactly when `now - start >= timeout` |
| Congestion.RetransmitTimer.Reset | backend/flow_control.py:51-52 | the timer is stopped and keeps its timeout |
| Cipher.BigEndianRoundTrip | client_tcp.py:86 | the 8-byte big-endian counter field reads back as the counter, so distinct blocks hash distinct inputs |
| Cipher.DeriveKeyBytes | client_tcp.py:73-79 | the key has exactly `max(0, length)` bytes, and byte i is byte i mod 32 of hash(secret ‖ counter i div 32) |
| Cipher.EncryptBytes | client_tcp.py:82-91 | the output has the input's length, and byte k is data[k] XOR keystream byte k, the same keystream `derive_key_bytes` yields |
| Cipher.XorChunk | client_tcp.py:89-90 | one block XORs the chunk into `out` at its offset and changes no other byte |
| Cipher.DecryptBytes | client_tcp.py:94-95 | decryption is the same keystream XOR |
| Cipher.DecryptInvertsEncrypt | client_tcp.py:82-95 | decrypting an encryption with the same secret gives back the plaintext, for every hash function |
| TcpSender.Ascending | client_tcp.py:145 | `sorted(buffer.keys())`: exactly the buffer's offsets, each once, strictly increasing |
| TcpSender.LayoutSegments | client_tcp.py:127-135 | every new segment is non-empty, at most MSS bytes, unsent, carries the write's routing, and lies inside the write's offset range; a non-empty write always has a segment at its first offset (the old `next_seq`), and an empty write makes none |
| TcpSender.LayoutKeyedByOffset | client_tcp.py:127-135 | each new segment is stored under the offset of its first byte: the segment at offset k holds exactly the written bytes from position k - start on, so every segment is a slice of the stream at its own key |
| TcpSender.LayoutReassembles | client_tcp.py:127-135 | concatenating the new segments in offset order gives back the written payload |
| TcpSender.EnqueuedFacts | client_tcp.py:127-135 | `next_seq` advances by the payload length, old segments are untouched, new ones lie in the new range, the buffer invariant is kept, and an empty write changes nothing |
| TcpSender.SendRoundFrame | client_tcp.py:145-166 | the send loop keeps the buffer's offsets, only transmits offsets it visits, and leaves every untransmitted segment unchanged |
| TcpSender.SendRoundMarks | client_tcp.py:149-164 | each transmitted frame carries its segment's payload and routing, and that segment is then marked sent with time `now`; only unsent segments are transmitted |
| TcpSender.SendRoundAscending | client_tcp.py:145-146 | frames go out in strictly increasing offset order |
| TcpSender.SendRoundBudget | client_tcp.py:146-166 | every frame is sent while budget is left (the bytes sent before it are fewer than `allowed`), so the round overshoots `allowed` by at most its last segment |
| TcpSender.SendRoundFailure | client_tcp.py:160-162 | the round aborts only on the write the link refuses; a round that does not abort stays within the link's capacity |
| TcpSender.SendRoundStops | client_tcp.py:146-166 | a round that does not abort ends only when the budget is spent or every visited segment is sent |
| TcpSender.OpenWindowRound | client_tcp.py:138-170 | with an open window, `_try_send` is one round over the sorted offsets; the timer starts unless the round aborted |
| TcpSender.WindowFullIsNoOp | client_tcp.py:140-144 | with `min(cwnd, rwnd) - outstanding <= 0` nothing is sent and nothing changes |
| TcpSender.TrySendFacts | client_tcp.py:138-170 | `_try_send` keeps the invariant and the buffer's offsets, changes only `sent` flags and the timer, and transmits only previously unsent segments, which it marks sent |
| TcpSender.OversizedWriteStalls | client_tcp.py:127-144 | a fresh sender that enqueues one initial cwnd (one MSS) or more sends nothing, because unsent bytes count as outstanding |
| TcpSender.NewAckFacts | client_tcp.py:191-209 | the advertised rwnd is taken; a new cumulative ACK drops exactly the segments below it, moves `send_base`, grows cwnd by MSS (slow start) or the avoidance step, keeps ssthresh and clears duplicate counts; a stale ACK changes only rwnd; neither touches `next_seq` or the timer |
| TcpSender.DuplicateAckFacts | client_tcp.py:191-219 | the advertised rwnd is taken; an ACK equal to `send_base` increments its duplicate count; from the third on it sets ssthresh to the reduced threshold and cwnd to ssthresh + 3·MSS, and clears only the sent mark of the `send_base` segment (its payload, routing and send time stay); nothing else in the buffer changes; `send_base`, `next_seq` and the timer are untouched |
| TcpSender.AckHandledKeepsInv | client_tcp.py:191-219 | `handle_ack` keeps the sender invariant: every buffered offset is below `next_seq`, and cwnd and ssthresh are at least one MSS. It does not keep `send_base ≤ next_seq`, because any ACK above `send_base` is accepted |
| TcpSender.TimedOutFacts | client_tcp.py:172-184 | the timer body is a no-op when nothing is outstanding or `send_base` is not buffered. Otherwise cwnd becomes MSS and ssthresh the reduced threshold. The `send_base` segment is either resent in this call or left marked unsent. Offsets, `next_seq`, `send_base`, the duplicate counts and rwnd are unchanged. With one MSS or more outstanding nothing is sent. The timer is off afterwards and the invariant is kept |
| TcpSender.TimeoutEffect | client_tcp.py:177-184 | the outstanding case of the timer body, with the same facts as `TimedOutFacts` |
| TcpSender.TimeoutResends | client_tcp.py:177-184 | with the intended (non-blocking) call to `_try_send`, if `send_base` is the oldest buffered offset and the collapsed window has room, the first frame out is the `send_base` segment, which is marked sent again |
| TcpSender.TimeoutHangs | client_tcp.py:172-184 | as written the timer body sends nothing and its thread stays alive, in the states where `TcpSender.TimeoutResends` shows the intended body resends `send_base` |
| TcpSender.SendLoop | client_tcp.py:145-166 | the `for seq in seqs` loop computes the specified send round |
| TcpSender.Acknowledged | client_tcp.py:197-200 | `to_delete` holds exactly the buffered offsets below the ACK |
| TcpSender.AckedRemoval | client_tcp.py:197-202 | deleting `to_delete` leaves exactly the segments at or above the ACK |
| TcpSender.Sender.constructor | client_tcp.py:99-116 | `next_seq = send_base = 1`, empty buffer, cwnd = 1·MSS, ssthresh = 8·MSS, rwnd = 32·MSS, no timer |
| TcpSender.Sender.EnqueueAndTrySend | client_tcp.py:127-136 | the new state and frames are those of enqueuing the payload and then running `_try_send` |
| TcpSender.Sender.Enqueue | client_tcp.py:128-135 | the segmentation loop stores exactly the specified layout |
| TcpSender.Sender.TrySend | client_tcp.py:138-170 | the new state and frames are the specified `_try_send` outcome |
| TcpSender.Sender.OnTimerExpiry | client_tcp.py:172-184 | the new state and frames are the specified timeout reaction |
| TcpSender.Sender.HandleAck | client_tcp.py:191-219 | the new state is the specified ACK reaction, and the invariant is kept |
| TcpSender.Sender.OnNewAck | client_tcp.py:195-209 | the new-ACK branch: deletion loop, `send_base`, cwnd growth, cleared duplicate counts |
| TcpSender.Sender.OnDuplicateAck | client_tcp.py:210-219 | the duplicate-ACK branch, with fast retransmit from the third duplicate |
| TcpReceiver.Advance | client_tcp.py:299 | `expected_seq += len(payload) or 1` always moves the cursor forward |
| TcpReceiver.DrainFacts | client_tcp.py:300-303 | the drain loop moves the cursor forward, only appends to the delivery log, only removes buffered entries, and stops with the cursor on an unbuffered offset |
| TcpReceiver.ReceivedFacts | client_tcp.py:290-308 | the in-order segment is delivered first and the cursor advances; a later segment is buffered undelivered; an older one changes nothing |
| TcpReceiver.RepeatDeliveredOnce | client_tcp.py:297-308 | a segment processed twice is delivered once |
| TcpReceiver.DeliverAppends | client_tcp.py:316-324 | a delivery appends exactly its payload to the delivered bytes |
| TcpReceiver.DrainConsistent | client_tcp.py:300-303 | the drain keeps the delivered bytes a prefix of the sender's stream |
| TcpReceiver.ReceivedConsistent | client_tcp.py:297-308 | whatever the order and repetition of segments of one stream, the bytes delivered so far are exactly that stream's prefix up to the cursor |
| TcpReceiver.Receiver.constructor | client_tcp.py:281-288 | `expected_seq = 1`, empty reorder buffer, no deliveries |
| TcpReceiver.Receiver.DeliverPayload | client_tcp.py:316-329 | logs the delivery; a FILE_CHUNK payload is appended to the sender's chunk list |
| TcpReceiver.Receiver.ProcessSegment | client_tcp.py:290-314 | a segment without `seq` changes nothing and is not acknowledged; otherwise the state is the specified reception, and the cumulative ACK `expected_seq` is both returned and fed to the local sender's `handle_ack` with the fixed rwnd |
| FileTransfer.NextMissingFacts | frontend/src/App.jsx:193-195 | the advance loop stops at the first index not received, and every index it passes was received |
| FileTransfer.ChunkStoredFacts | frontend/src/App.jsx:178-195 | storing a chunk overwrites that index, counts one more arrival, never moves `next_expected` back, moves it forward when the chunk is the expected one, keeps a known total, and keeps every index below `next_expected` received |
| FileTransfer.AssembleFacts | frontend/src/App.jsx:209-217 | assembly collects the chunks in index order, or stops at the first missing index, with all earlier indices present |
| FileTransfer.CompletedFacts | frontend/src/App.jsx:207-225 | assembly is tried exactly when the total is known and enough chunks arrived; assembled parts are chunks 0..total-1 in order; a failure names the first missing index |
| FileTransfer.AdvancingAckFacts | frontend/src/App.jsx:65-100 | an advancing ACK removes the newly acknowledged indices from in-flight, payloads and send times, keeps other in-flight indices and every payload and send time at or above the new ACK, keeps `nextToSend` and `totalChunks`, grows cwnd by the newly acked count (slow start) or by count/cwnd (avoidance), sets `lastAck`, resets the duplicate count and resends nothing |
| FileTransfer.DuplicateAckFacts | frontend/src/App.jsx:104-123 | a non-advancing ACK increments the duplicate count; from the third on, ssthresh = max(1, ⌊cwnd/2⌋), cwnd = ssthresh + 3, and chunk `acked_up_to` is resent exactly when its payload is stored, as a FILE_CHUNK carrying the transfer's `to`, `room`, id, total and that payload, with its send time restamped to `now`; payloads, in-flight set, other send times, `nextToSend`, `totalChunks` and `lastAck` are kept |
| FileTransfer.AckMonotone | frontend/src/App.jsx:57-129 | `acked_up_to` never decreases, no payload below it survives the clean-up, and the record invariant is kept |
| FileTransfer.PumpSends | frontend/src/App.jsx:288-300 | the send loop emits consecutive indices from `nextToSend`, each with its stored non-empty payload, and advances `nextToSend` by the number sent |
| FileTransfer.PumpStamps | frontend/src/App.jsx:298-300 | every index sent is in flight and stamped with `now`; one pass uses a single `now` for all its sends, where the source reads `Date.now()` per send |
| FileTransfer.PumpKeeps | frontend/src/App.jsx:288-303 | the loop never removes in-flight indices or earlier send times |
| FileTransfer.PumpGate | frontend/src/App.jsx:286-288 | when the loop stops, the window is full, all chunks are sent or the next payload is not ready; if the in-flight set started within the window `max(1, ⌊cwnd⌋)`, it ends within it |
| FileTransfer.ChunkCountFacts | frontend/src/App.jsx:340 | `ceil(size / CHUNK_SIZE)` chunks cover the file with no spare chunk, each non-empty and at most CHUNK_SIZE bytes |
| FileTransfer.JoinedPrefix | frontend/src/App.jsx:352-355 | the first n slices concatenate to the file's first min(n·CHUNK_SIZE, size) bytes |
| FileTransfer.ChunksPartitionFile | frontend/src/App.jsx:340-364 | concatenating all slices in order gives back the file |
| FileTransfer.PlaceholderAckLost | frontend/src/App.jsx:181-198 | as written, chunk 0 arriving before its metadata produces an ACK without `ack`, which the sender reads as 0 and counts as a duplicate |
| FileTransfer.PlaceholderNeverAcks | frontend/src/App.jsx:181-195 | as written, a placeholder record never acquires `next_expected`, whatever chunks arrive |
| FileTransfer.PlaceholderAckAdvances | frontend/src/App.jsx:179-198 | with `next_expected` initialised to 0, chunk 0 yields an ACK of at least 1, which advances the sender |
| FileTransfer.RegisteredFacts | frontend/src/App.jsx:340-364 | a registered transfer has `ceil(size/CHUNK_SIZE)` chunks, a non-empty payload of at most CHUNK_SIZE for each index and no other, satisfies the record invariant, and the payload at index i is the file's i-th CHUNK_SIZE slice, the slices concatenating back to the file |
| FileTransfer.Cleanup | frontend/src/App.jsx:126-129 | the defensive clean-up loop deletes exactly the payloads and send times below `acked_up_to` |
| FileTransfer.SliceFile | frontend/src/App.jsx:352-364 | the slicing loop stores slice i at index i for every chunk |
| FileTransfer.FileTransfers.constructor | frontend/src/App.jsx:12-13 | both transfer tables start empty |
| FileTransfer.FileTransfers.OnFileChunk | frontend/src/App.jsx:174-229 | a chunk without transfer id or index changes nothing; otherwise it is stored in the existing or a new placeholder record, the cumulative ACK `next_expected` is returned, and a completed transfer is assembled and removed |
| FileTransfer.FileTransfers.StoreChunk | frontend/src/App.jsx:178-195 | the chunk store plus advance loop computes the specified record |
| FileTransfer.FileTransfers.Assembly | frontend/src/App.jsx:207-225 | the completion check and assembly loop compute the specified outcome |
| FileTransfer.FileTransfers.OnAck | frontend/src/App.jsx:55-131 | an ACK for a known transfer replaces its record with the specified ACK result and returns the fast-retransmit frame, if any; any other ACK changes nothing |
| FileTransfer.FileTransfers.AckStep | frontend/src/App.jsx:60-124 | the advancing and duplicate branches compute the specified result |
| FileTransfer.FileTransfers.PumpTransfer | frontend/src/App.jsx:281-303 | one sender-loop pass over a transfer sends the specified frames and stores the updated record |
| FileTransfer.FileTransfers.PumpLoopMethod | frontend/src/App.jsx:286-303 | the window-gated `while` loop computes the specified pump result |
| FileTransfer.FileTransfers.SendFile | frontend/src/App.jsx:332-371 | with neither recipient nor room nothing is registered; otherwise the transfer is registered with all slices and the FILE_META frame is returned |
| ChatServer.FirstRoomOf | backend/app.py:115-119 | a room found contains the user |
| ChatServer.FirstRoomOfFacts | backend/app.py:216-220 | the room found is the first in dictionary order that contains the user; none is found exactly when no room contains it |
| ChatServer.RegisterFacts | backend/app.py:68-73 | a taken name is refused with "name taken" and the state is unchanged; otherwise the name is added |
| ChatServer.JoinFacts | backend/app.py:106-111 | an empty room name changes nothing; otherwise the user is added to that room, created if new, and other rooms are untouched; well-formedness and "members are connected" are kept |
| ChatServer.LeaveFacts | backend/app.py:112-120 | the user is removed from the first room that contains it and from no other; if none contains it nothing changes; the room stays even if empty |
| ChatServer.KeptRoomsFacts | backend/app.py:260-263 | the rooms kept on disconnect are exactly those with another member left, each once |
| ChatServer.DisconnectFacts | backend/app.py:257-263 | after disconnect the name is gone from clients and from every room, every empty room is deleted, every other room keeps its other members, and well-formedness is kept |
| ChatServer.ForwardingFacts | backend/app.py:202-233 | a direct message goes to exactly the named client, or fails with "no such user"; a room message goes to the room's other connected members; without a room it goes to the connected members of the first room in dictionary order that holds the sender, or fails with "not in room" exactly when no room holds it; a room message never goes back to its sender (a direct message addressed to oneself does, as in the source) |
| ChatServer.RouteErrors | backend/app.py:143-252 | an unknown type gets "unknown type"; a FILE_CHUNK with no transfer id gets "missing transfer_id in FILE_CHUNK"; an ACK without `to` gets "ACK missing to field", one whose `to` is not connected gets "no such user for ACK", and one with a connected `to` is delivered exactly to that client |
| ChatServer.DisconnectedUnreachable | backend/app.py:257-263 | after a client disconnects, no routing decision delivers to it |
| ChatServer.Registry.constructor | backend/app.py:32-33 | no clients and no rooms |
| ChatServer.Registry.Register | backend/app.py:68-73 | the new state and error are the specified registration |
| ChatServer.Registry.Join | backend/app.py:106-111 | the new state is the specified join, and JOINED names the room |
| ChatServer.Registry.Leave | backend/app.py:112-120 | the new state is the specified leave, and LEFT names the first room that contained the user |
| ChatServer.Registry.Disconnect | backend/app.py:257-263 | the new state is the specified clean-up |
| ChatServer.FindRoom | backend/app.py:115-119 | the `for r, members in rooms.items()` search returns the first room containing the user |
| ChatServer.CleanRooms | backend/app.py:260-263 | the clean-up loop removes the user from every room and deletes exactly the rooms left empty |
| ChatServer.CleanFoldMeaning | backend/app.py:260-263 | the loop's recursive account equals the map comprehension over all rooms |

## Left out

- Wire framing, base64, JSON and socket I/O. `send_msg`'s success is the `Link` parameter. Frames are returned as values.
- Threads, locks and timing. `_retransmit_manager`'s periodic call is `TcpSender.Sender.TrySend`, and the timer thread's body after its sleep is `TcpSender.Sender.OnTimerExpiry`. Interleavings are not modelled.
- FileTransfer.FileTransfers.PumpLoopMethod: one pump pass takes a single clock reading `now` and stamps every chunk it sends with it. App.jsx:298 calls `Date.now()` for each send, so the stamps within one pass may differ by the time the sends take.
- TcpSender.Sender.OnTimerExpiry: runs the intended timer body, whose `_try_send` call goes ahead. As written the call blocks on `buffer_lock`; see "## Findings". The as-written body is `TcpSender.TimedOutAsWritten`. That every later operation then blocks on the held lock is not modelled.
- Printing and debug output. Deliveries are recorded in a log (`TcpReceiver`).
- The `_deliver_payload` FILE_META and unknown-type branches. The receiver never sees those kinds, because the modelled sender only emits MSG and FILE_CHUNK.
- TcpReceiver.Receiver.ProcessSegment: a segment without `seq` raises a TypeError in the source. The model treats it as "no state change, no ACK" and does not model the exception.
- The interactive input loop, `send_chat_message`, `send_file` and `run_client`. These are CLI glue around `_enqueue_and_try_send`.
- RTT estimation and RTO in App.jsx (lines 74-87), plus the timeout half of the sender loop (lines 305-325). These depend on the wall clock and `Date.now()`. The RTT sample is read after the deletion loop has removed `sentAt[newAck-1]`, so it never fires. `FileTransfer.AdvancingAckFacts` shows that those send times are gone.
- FileTransfer.Grown: App.jsx grows cwnd with floating-point division. The model uses exact reals, so rounding is not modelled.
- Congestion.AvoidanceStep: takes the floor of the exact quotient `mss*mss / cwnd`. Python computes `int(mss * (mss / cwnd))` in floating point, and that rounding is not modelled.
- FileTransfer.FileTransfers.OnFileChunk: when no record exists for the transfer, it creates the corrected placeholder with `next_expected` 0, so it returns an ACK of at least 1. As written (App.jsx:181) the placeholder has no `next_expected` and the ACK carries no `ack`; see "## Findings". The as-written record is `FileTransfer.PlaceholderAsWritten`.
- The `try`/`catch` paths around `wsRef.current.send` in App.jsx are not modelled: the ACK send (197-204), the send-loop `break` (295-303) and the fast-retransmit send (115-121). Every send is taken to succeed. The loop runs only after the `readyState === OPEN` check (279), so these paths are nearly unreachable.
- The App.jsx FILE_META branch, the CLIENTS list, chat messages, React state and UI messages.
- Base64 encoding of chunks in `sendFile`. Payloads are kept as raw bytes. The `await` between slices is not modelled: `sendFile` registers all slices at once.
- The outer `for (tid in sentTransfers)` loop. It is `FileTransfer.FileTransfers.PumpTransfer` applied per transfer; the order across transfers is not modelled.
- The server's CLIENTS broadcast, the CONNECTED / JOINED / LEFT replies beyond the returned room, the 'invalid json' error and the MongoDB/GridFS persistence of FILE_META and FILE_CHUNK.
- The REST endpoints, plus the anonymous-name fallback `anon-<id>`: the name is a parameter.
- Python dictionary iteration order. This is the room order `order`. Insertion order is appended on JOIN. `ChatServer.FirstRoomOf` follows it.
- Cipher: SHA-256 itself is the parameter `hash`. Only inputs shorter than 32·2^64 bytes are modelled, since `to_bytes(8, 'big')` raises an error beyond them.

## Findings

| source | as written | input that shows it | evidently intended | confidence | as-written member | corrected member |
|---|---|---|---|---|---|---|
| frontend/src/App.jsx:181 | the placeholder record created for a chunk whose FILE_META has not arrived has no `next_expected`, so the advance loop never runs, the ACK is sent with `ack` undefined, and the sender reads `msg.ack \|\| 0` as a duplicate ACK | chunk 0 of a transfer arriving before its FILE_META | the placeholder starts with `next_expected: 0`, so the receiver acknowledges chunk 0 with `ack` ≥ 1 and the sender advances | not executed | FileTransfer.PlaceholderAckLost | FileTransfer.PlaceholderAckAdvances |
| client_tcp.py:174-184 | `_start_timer` calls `_try_send` while still holding `buffer_lock`, a non-reentrant `threading.Lock` (line 105), and `_try_send` acquires it again (line 139). The timer thread blocks forever: nothing is retransmitted, the thread stays alive so no new timer is started, and every later enqueue, `handle_ack` and `_retransmit_manager` call blocks on the lock | any timeout that finds `send_base` still buffered, e.g. one 100-byte write whose ACK is lost | the timeout reduces the window, marks `send_base` unsent and then resends it, with the lock released before the call | not executed | TcpSender.TimeoutHangs | TcpSender.TimeoutResends |
