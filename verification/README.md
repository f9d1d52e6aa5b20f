# DTun, verified

A Dafny model of the parts of DTun whose correctness rests on interplay: the uTP transport and its hash table, the
buffers above and beside it, the reactor, and the NAT rendezvous protocol with its port allocator.

`dafny verify dfyconfig.toml` checks everything.

## What is modelled

- **uTP** (`SeqSpace`, `Ring`, `UtpModel`, `UtpInvariant`, `UtpDelivery`, `UtpSystem`, `UtpFlush`, `UtpReports`,
  `UtpArrival`, `UtpAcks`, `UtpResend`, `UtpCallbacks`, `UtpFin`, `UtpRings`, `UtpSocket`, `UtpPair`).
  `UtpModel` is the protocol on unbounded packet numbers; `UtpSystem` runs two sockets over a network that may lose,
  duplicate, reorder and delay anything; `EndToEnd` is the main theorem. The upper layer may write, close, shut down and
  drain a socket from inside any of its callbacks, in the middle of an incoming datagram or a timeout: an event carries
  the calls each callback makes (`Callbacks`). What the protocol must do beside what it must not break is in `UtpFlush` (what
  is sent), `UtpArrival` (what is taken and held), `UtpAcks` (what an ack releases), `UtpResend` (what an ack or a timeout
  sends again) and `UtpCallbacks` (which callbacks run), in terms of the window, the outbox and the packets held. `UtpSocket` is the code's own form, with 16-bit numbers and growing rings,
  and every method refines the model; `UtpPair` drives two of them. The protocol is BEP 29.
- **The uTP hash table** (`UtpHash`): chains and a free list threaded through one array by index, as a map, with an
  iterator that survives deletion of the element it just returned.
- **UTPConnection** (`UtpConnection`): two write queues over the transport, and its runs together with those of the socket.
- **Port allocator** (`PortOrder`, `PortModel`, `PortInvariant`, `PortWakeup`, `PortRuns`, `PortAllocator`): every section run under
  the lock is a step of a machine in which the callers, the reactor and the clock interleave freely.
- **SysReactor** (`ReactorModel`, `ReactorSafety`, `ReactorRuns`, `SysReactor`): the reactor thread and any number of others.
- **Rendezvous**: the node's queue (`NodeModel`, `NodeQueue`, `NodeRuns`, `DMasterClient`), the master (`MasterModel`, `MasterSafety`,
  `Server`), the token exchange of a fast rendezvous (`FastModel`, `FastSafety`, `FastRuns`,
  `FastSession`).
- **ProxySession** and the **UDT buffers** (`UdtSndBuffer`, `UdtRcvBuffer`).

State machines are values with step functions; the classes beside them have the source's fields and loops. Each method of
the reactor, the port allocator, the node, the master and the fast rendezvous is proved to make exactly one step
(`IsStep`), so what is proved of all runs holds of them; each method of the uTP socket computes the model's function. The
hash table, the connections and the buffers have no machine beside them: their methods keep an invariant over everything
that was ever put in and taken out.

## Where the code does not do what one would expect

- A packet sent before the FIN may be refused when the two numbers lie on different sides of the 16-bit wrap
  (`UtpFin.StoredBeforeFin` says exactly when, `UtpFin.FinComparisonRefuses` reaches it with a FIN that overtakes others);
  between two sockets that hold their FIN back until everything else is acknowledged this cannot happen
  (`UtpFin.HeldBackIsReached`).
- A datagram one turn of the number space old is taken for a new one (`UtpSocket.StaleTaken`).
- A request for zero ports is never served and blocks the requests behind it (`PortOrder.ReservePorts`); cancelling the
  first waiting request wakes nobody (`PortWakeup.CancelWoken`); a port whose decay ends while the timeout is handled may
  be overlooked (`PortWakeup.FinishTimerWoken`).
- A `remove` that returns no handle may return while the handler runs (`ReactorSafety.NoHandleNoPromise`); it is safe
  exactly when the handler is not being run at that moment (`ReactorSafety.SilentExactly`).
- An empty write on a UTPConnection holds up everything behind it (`UtpConnections.UtpConnection.PushOut`).
- Closing a connection that waits for the master asks for the next one before the first was answered
  (`NodeQueue.TwoUnanswered`).
- NEXTs left over from earlier steps let the owner ping out of turn, by two pings for each step before
  (`FastSafety.PingsInTurn`, met by `FastRuns.BoundsMet`).
- A fast rendezvous owner without best effort sends READY twice: the peer's first address makes it ready instead of
  starting its pings, and its peer goes through a step more (`FastRuns.SecondReady`).
- After a local shutdown with nothing in flight, no completion ends a ProxySession
  (`ProxySessions.EndsExactlyIfInFlight`, reached by `ProxySessions.ShutdownFirst`).

## Model

| member | source | states |
|---|---|---|
| SeqSpace.WrappingLessExact | libutp/utp_internal.cpp:229-240 | For numbers less than half the space apart, the wrapped comparison is the true `<`, across every wrap. |
| SeqSpace.AckInRangeExact | libutp/utp_internal.cpp:1804-1818 | The two wrapped tests on an ack number accept exactly the acks at most `allowed` behind the last packet sent. |
| SeqSpace.OffsetExact | libutp/utp_internal.cpp:1897-1910 | The 16-bit distance is the true one modulo 65536; for packets within one turn, the test against 1024 gives the true answer exactly when the packet is no more than 64512 behind. |
| Ring.SlotsDistinct | libutp/utp_internal.cpp:187-199 | No two numbers of a window as long as the ring share a slot. |
| Ring.SameSlot | libutp/utp_internal.cpp:187-199 | A wrapped 16-bit number and the true number it stands for have the same slot, for every ring size. |
| Ring.AtGrown | libutp/utp_internal.cpp:203-223 | Growing keeps every lookup of the old window and finds nothing in the new part, for any number of doublings and across wraps. |
| Ring.SizableCircularBuffer.Grow | libutp/utp_internal.cpp:203-223 | The in-place doubling and copying loops produce the grown ring. |
| Ring.SizableCircularBuffer.PutAt | libutp/utp_internal.cpp:187-199 | A store changes one slot of the array, the one of its number. |
| UtpRings.OutAppend | libutp/utp_internal.cpp:1085-1096 | Appending to the send ring, growing it first when needed, appends one packet to the window it stands for. |
| UtpRings.OutPop | libutp/utp_internal.cpp:2206-2231 | Moving the window forward drops the oldest packet and nothing else from what the send ring stands for. |
| UtpRings.InPut | libutp/utp_internal.cpp:2466-2493 | Storing a packet in the receive ring adds exactly that number to the packets held. |
| UtpRings.InGrow | libutp/utp_internal.cpp:2466 | Growing the receive ring changes nothing of what it holds. |
| UtpRings.BuildEack | libutp/utp_internal.cpp:786-816 | Bit i of the mask is set exactly when packet ack + 2 + i is held, for every ring size and across the wrap: no slot aliases. |
| UtpInvariant.TransmitKeeps | libutp/utp_internal.cpp:863-926 | Sending a packet again, or for the first time, keeps the pair of sockets consistent: window, in-flight bytes, datagrams and what the peer has. |
| UtpInvariant.SendAckKeeps | libutp/utp_internal.cpp:769-829 | An ack datagram tells the peer only what was taken or is held. |
| UtpInvariant.AckKeeps | libutp/utp_internal.cpp:1339-1410 | Emptying an acknowledged slot other than the head keeps the pair consistent. |
| UtpInvariant.FlushKeeps | libutp/utp_internal.cpp:960-987 | Sending what waits in the window keeps the pair consistent. |
| UtpInvariant.EnqueueKeeps | libutp/utp_internal.cpp:989-1098 | Filling the last packet or adding one appends exactly its bytes to the stream and to `outbuf_sizes`. |
| UtpInvariant.WriteKeeps | libutp/utp_internal.cpp:3167-3253 | utp_writev appends to the stream exactly the bytes it says it took. |
| UtpInvariant.SendFinKeeps | libutp/utp_internal.cpp:3371-3431 | The FIN takes its place after all data. |
| UtpInvariant.CallKeeps | libutp/utp_internal.cpp:3167-3463 | A write, close, shutdown, read-drained or deferred ack, made between datagrams or from inside any callback, keeps the pair consistent and the accepted bytes equal to the stream queued. |
| UtpInvariant.CallsKeep | dutil/UTPHandleImpl.cpp:281-388 | So does a callback that makes any number of them. |
| UtpInvariant.CheckTimeoutsKeeps | libutp/utp_internal.cpp:1117-1297 | check_timeouts, with whatever its writable and error callbacks call on the socket, keeps the pair consistent and everything that holds between calls. |
| UtpInvariant.AckLoopKeeps | libutp/utp_internal.cpp:2206-2231 | The cumulative ack releases the packets it covers, in order, and counts their bytes once. |
| UtpInvariant.DropKeeps | libutp/utp_internal.cpp:2244-2262 | Slots emptied by selective acks are dropped only once they are the oldest, so the head of a non-empty window is live again. |
| UtpInvariant.SackKeeps | libutp/utp_internal.cpp:1451-1541 | A selective ack backed by what the peer holds keeps the pair consistent. |
| UtpInvariant.ResendKeeps | libutp/utp_internal.cpp:1543-1613 | Fast resends keep the pair consistent. |
| UtpInvariant.ReleaseKeeps | libutp/utp_internal.cpp:2198-2262 | After an ack the window starts at a live packet and the popped bytes are those of released packets. |
| UtpInvariant.AckedKeeps | libutp/utp_internal.cpp:2164-2316 | Everything an ack does before the upper layer hears of it releases only packets the peer has received, changes no payload, and leaves a live window head. |
| UtpInvariant.ProcessAckKeeps | libutp/utp_internal.cpp:2198-2333 | The whole ack part keeps the pair consistent, with whatever the sent and writable callbacks call on the same socket before it goes on. |
| UtpDelivery.TakeNewKeeps | libutp/utp_internal.cpp:2369-2380 | An in-order packet is handed up and counted, whatever its read callback calls in between. |
| UtpDelivery.TakeHeldKeeps | libutp/utp_internal.cpp:2414-2429 | So is a held packet, also while it has left the reorder buffer and is not yet counted. |
| UtpDelivery.ReachFinKeeps | libutp/utp_internal.cpp:2386-2408 | Reaching the FIN, with whatever the end-of-file callback calls, keeps the pair consistent. |
| UtpDelivery.DrainKeeps | libutp/utp_internal.cpp:2384-2432 | Handing up held packets in order, callback by callback, ends with the next expected packet not held and the count of held packets right. |
| UtpDelivery.ProcessDataKeeps | libutp/utp_internal.cpp:2369-2501 | Whatever a data packet does (`UtpArrival.InOrderTaken`, `UtpArrival.OutOfOrderHeld`), what was handed up stays a prefix of what was written and the pair stays consistent. |
| UtpDelivery.IncomingKeeps | libutp/utp_internal.cpp:1777-2504 | The whole of utp_process_incoming, with whatever all its callbacks call on the same socket, keeps the pair of sockets consistent, for every datagram the peer ever sent. |
| UtpSystem.StepKeeps | libutp/utp_internal.cpp:1777-2504 | Any call on either side, any timeout or failure and any delivery of any earlier datagram, each with whatever its callbacks call, keeps both directions consistent. |
| UtpSystem.Conservation | libutp/utp_internal.cpp:1026-1096 | Bytes accepted are bytes popped plus the sum of `outbuf_sizes`. |
| UtpSystem.EndToEnd | libutp/utp_internal.cpp:1777-2504 | In every state of every run with loss, duplication, any reordering and any calls from callbacks: reported bytes are a prefix of delivered ones (unless the reader stopped), those of accepted ones; accepted bytes are reported or queued; `cur_window` is the payload in flight; the window head is live; at most 1024 packets; `reorder_count` counts the held packets until the FIN is reached. |
| UtpReports.ReactReports | libutp/utp_internal.cpp:2318-2333 | Whatever happens at a socket and whatever its callbacks call, accepted bytes stay accepted, and the reported bytes grow by exactly what on_sent is told: the bytes released on an open connection. |
| UtpFlush.FlushSends | libutp/utp_internal.cpp:960-987 | After flush_packets a packet still waits only because the window or the byte quota is full, or because it is the last of several and not full; each packet that went out did so once, oldest first, and the new datagrams are exactly theirs, in window order, with their numbers and payloads; the quota is kept. |
| UtpFlush.WriteSends | libutp/utp_internal.cpp:3167-3253 | utp_writev on a connected socket takes everything or stops at a full window and says so; fills each packet before it begins the next; and leaves nothing waiting that could be sent, the new datagrams being exactly those of the packets it sent. |
| UtpFlush.CloseSends | libutp/utp_internal.cpp:3371-3431 | utp_close queues one FIN behind everything else, unless one is queued, and flushes; or destroys a socket that is not connected or whose FIN was acknowledged. |
| UtpFlush.ShutdownSends | libutp/utp_internal.cpp:3433-3463 | utp_shutdown of the writing side queues one FIN behind everything else and flushes; of the reading side, stops the reading. |
| UtpFlush.AckTells | libutp/utp_internal.cpp:3255-3287 | A deferred ack, and the ack of a window that opens, is one State datagram with the cumulative ack and, when packets are held, bits for exactly the next thirty held after a gap. |
| UtpArrival.InOrderTaken | libutp/utp_internal.cpp:2369-2432 | On a connection that takes data, the packet expected next is taken, and with it exactly the packets held without a gap behind it, up to the FIN; all are handed up in order while somebody reads; the rest stays held; reaching the FIN is acknowledged at once and everything else soon. |
| UtpArrival.OutOfOrderHeld | libutp/utp_internal.cpp:2434-2500 | A packet further ahead is held under its number with its payload, counted and acknowledged soon, unless it is held already or refused by the FIN comparison; no other held packet changes, and nothing is handed up. |
| UtpArrival.Arrives | libutp/utp_internal.cpp:2337-2501 | Every data packet or FIN in range, with an acceptable ack and not past a noted FIN, ends up received, exactly except one ahead on the other side of the wrap from a noted FIN. |
| UtpArrival.OpenArrives | libutp/utp_internal.cpp:1804-2501 | The same in terms of the connection before the datagram: open, or completed by it, with its own FIN not acknowledged, and whatever the callbacks do. |
| UtpArrival.OthersIgnored | libutp/utp_internal.cpp:1804-1910 | A datagram with an impossible ack or number changes nothing, except that a duplicate is acknowledged again soon. |
| UtpArrival.StaysOpen | libutp/utp_internal.cpp:2164-2198 | The ack part leaves a connection open for data exactly unless it was closed and its FIN is acknowledged, when its callbacks do not close it, and always while the FIN is not acknowledged. |
| UtpArrival.LateFin | libutp/utp_internal.cpp:2339-2348 | On a connection that is over, exactly a FIN that is next is still acknowledged, once our own was; nothing else is taken. |
| UtpAcks.AckReleases | libutp/utp_internal.cpp:2198-2262 | An acceptable ack moves the window past every packet it acknowledges, then past those acknowledged before, and past no other; exactly their bytes are counted; of the packets that remain exactly those transmitted with their bit set lose their slot, never the oldest; no other packet is lost, whatever the callbacks do. |
| UtpResend.AckAnswers | libutp/utp_internal.cpp:2262-2312 | An acceptable ack sends, in this order, a lone packet held back for more bytes, the oldest packet once more while the window has not moved past the mark of a timeout, and the packets a selective ack asks for; it says when the retry mode ends and where the mark is left; a State datagram with callbacks that make no calls sends nothing else. |
| UtpResend.SackResendsThem | libutp/utp_internal.cpp:1451-1620 | A selective ack sends again at most four packets: the one awaited, then, oldest first, those that were sent and are not told though three beyond them are, none of them behind the mark; an overflow of the resend stack loses none of these four. |
| UtpResend.AckReopens | libutp/utp_internal.cpp:2323-2333 | After an ack a connection counts as full only while its window is. |
| UtpResend.TimeoutDoes | libutp/utp_internal.cpp:1117-1297 | check_timeouts flushes; a retransmission timeout sends the oldest packet again before anything else and marks every other packet that was sent, or ends the connection; without one nothing is marked; a connection without a sign of life is ended; an idle one sends a keep-alive that acknowledges one packet less. |
| UtpCallbacks.CallbacksRun | libutp/utp_internal.cpp:2318-2432 | on_sent runs when bytes are released, on_read for each payload that has bytes while somebody reads, on_eof when the FIN is reached: a utp_close made from one of them is seen afterwards, and nothing else closes the socket. |
| UtpCallbacks.TimeoutCallbacks | libutp/utp_internal.cpp:1117-1297 | The error callback of a timeout runs, and the one for room in the window exactly when there is room; a connection that ends is destroyed exactly if it was closed, before or from there, and reset otherwise. |
| UtpCallbacks.HandshakeEnds | libutp/utp_internal.cpp:2164-2193 | Until a data packet ends the handshake an accepted socket stays as it is, unless it was closed and everything is acknowledged. |
| UtpSystem.OnlyStaleness | libutp/utp_internal.cpp:1804-1910 | Of what the 16-bit utp_process_incoming is required to be given, every datagram of a run satisfies the part about the FIN, and the part about numbers exactly when it is not 64512 packets or a full turn of acks behind. |
| UtpSystem.SelectiveAckExact | libutp/utp_internal.cpp:1478-1541 | A selective ack empties exactly the slots of transmitted packets whose bit is set, never the oldest. |
| UtpFin.NotedFinIsHeld | libutp/utp_internal.cpp:2350-2366 | In every state of every run a FIN that was noted and not yet reached waits in the reorder buffer. |
| UtpFin.StoredBeforeFin | libutp/utp_internal.cpp:2437-2500 | Of the packets sent before a noted FIN that arrive out of order, exactly those on the FIN's side of the wrap are stored; the others change nothing. |
| UtpFin.FinComparisonRefuses | libutp/utp_internal.cpp:2437-2447 | At a socket given a FIN that overtakes four packets, that FIN is stored, and then the third of them is thrown away when it arrives. |
| UtpFin.HeldBackIsReached | libutp/utp_internal.cpp:2350-2408 | In every run in which no FIN was sent while other packets were outstanding, a FIN is reached as soon as it is noted: no packet is compared with one still to come, and none refused. |
| UtpFin.FlushHoldsBack | libutp/utp_internal.cpp:960-983 | flush_packets sends no FIN behind other packets, for any positive packet size. |
| UtpSocket.StaleTaken | libutp/utp_internal.cpp:1897-1910 | On any idle connection, a datagram one turn old and the next packet look the same to the code, though the one is to be ignored and the other handed up. |
| UtpSocket.UtpSocket.SendPacket | libutp/utp_internal.cpp:863-926 | On 16-bit fields and the ring: the packet goes out with the numbers of the model, and `cur_window` follows. |
| UtpSocket.UtpSocket.AckPacket | libutp/utp_internal.cpp:1339-1410 | The three outcomes of ack_packet, and the slot and `cur_window` afterwards, are those of the model. |
| UtpSocket.UtpSocket.IsFullFor | libutp/utp_internal.cpp:928-958 | Full exactly when the window, the byte quota or the 1024 packet limit says so. |
| UtpSocket.UtpSocket.FlushPackets | libutp/utp_internal.cpp:960-987 | The loop over wrapped numbers sends what the model sends, in order; afterwards nothing waits that could be sent, and the new datagrams are exactly those of the packets sent. |
| UtpSocket.UtpSocket.WriteOutgoingPacket | libutp/utp_internal.cpp:989-1098 | The packing loop queues the bytes the model queues. |
| UtpSocket.UtpSocket.Writev | libutp/utp_internal.cpp:3167-3253 | Takes exactly the bytes the model takes. |
| UtpSocket.UtpSocket.EmitAck | libutp/utp_internal.cpp:769-829 | Sends the ack and mask of the model. |
| UtpSocket.UtpSocket.CloseSocket | libutp/utp_internal.cpp:3371-3431 | Same state and datagrams as the model. |
| UtpSocket.UtpSocket.ShutdownSocket | libutp/utp_internal.cpp:3433-3463 | Same state and datagrams as the model. |
| UtpSocket.UtpSocket.OnCheckTimeouts | libutp/utp_internal.cpp:1117-1297 | Same as the model, with the marking loop over wrapped numbers and the callbacks where the code makes them. |
| UtpSocket.UtpSocket.IssueDeferredAck | libutp/utp_internal.cpp:3277-3287 | Same as the model. |
| UtpSocket.UtpSocket.OnReadDrained | libutp/utp_internal.cpp:3255-3274 | Same as the model. |
| UtpSocket.UtpSocket.Upcall | dutil/UTPHandleImpl.cpp:326-388 | A callback that calls back into the same socket, in the middle of a datagram or a timeout, does what the model does. |
| UtpSocket.UtpSocket.OnSelectiveAck | libutp/utp_internal.cpp:1451-1620 | The bit scan, the resend stack and both resend loops on wrapped numbers do what the model does on true ones. |
| UtpSocket.UtpSocket.OnAck | libutp/utp_internal.cpp:1912-2333 | The whole ack side of utp_process_incoming on 16-bit fields refines the model, with the sent and writable callbacks where the code makes them. |
| UtpSocket.UtpSocket.TakeNextHeld | libutp/utp_internal.cpp:2414-2429 | The slot is emptied before the read callback and the packet counted after it; in between the socket may be called, and the mask it then sends is still right for every ring size. |
| UtpSocket.UtpSocket.OnData | libutp/utp_internal.cpp:2337-2501 | The whole data side refines the model, with the read and end-of-file callbacks where the code makes them; a packet it can take is received exactly unless it is ahead and across the wrap from a noted FIN. |
| UtpSocket.UtpSocket.ProcessIncoming | libutp/utp_internal.cpp:1777-2504 | The 16-bit, ring based utp_process_incoming has exactly the effect of the model on true numbers, whatever the callbacks call on the socket, for packets that are not stale; so it receives exactly the packets `UtpArrival.Arrives` names. |
| UtpPairs.Act | libutp/utp_internal.cpp:1777-2504 | Any call, timeout, failure or arrival of a datagram that is not stale does to a 16-bit socket what the event does to the socket over true numbers. |
| UtpPairs.Drive | libutp/utp_internal.cpp:1777-2504 | Two 16-bit sockets from any numbers the handshake chose, driven by any list of those, make a run of `UtpSystem`; in their own fields, what was handed up is a prefix of what was accepted, and what was reported has been handed up unless the reader stopped. |
| UtpHash.HashTable.Add | libutp/utp_hash.cpp:145-191 | The table afterwards is the old map with the key added; fails, changing nothing, exactly when every cell is used and no cell can be added. |
| UtpHash.HashTable.Del | libutp/utp_hash.cpp:195-219 | The table afterwards is the old map without the key; the deleted element is returned if there was one. |
| UtpHash.HashTable.Lookup | libutp/utp_hash.cpp:124-140 | Finds the key's element exactly when the map has the key. |
| UtpHash.HashTable.constructor | libutp/utp_hash.cpp:62-86 | The new table is the empty map. |
| UtpHash.HashTable.EachCellOnce | libutp/utp_hash.cpp:145-219 | Every used cell is on the free list or on one chain, never on two lists; `count` is the size of the map. |
| UtpHash.HashTable.Iterate | libutp/utp_hash.cpp:221-241 | One step moves to the next element in bucket and chain order, or finds that there is none. |
| UtpHash.HashTable.Sweep | libutp/utp_internal.cpp:3312-3325 | Iterating while deleting any of the elements just returned visits every key that was there exactly once, ends, and leaves the map without the deleted keys. |
| UtpHash.AddReused | libutp/utp_hash.cpp:179-191 | Taking a cell off the free list keeps all lists threaded, disjoint and keyed. |
| UtpHash.AddFresh | libutp/utp_hash.cpp:153-191 | Taking a new cell does too. |
| UtpHash.DelLists | libutp/utp_hash.cpp:202-214 | Unlinking a cell anywhere in a chain and freeing it keeps every list threaded and without cycles. |
| UtpHash.PassedDeleted | libutp/utp_hash.cpp:221-241 | Deleting the element just returned moves the iterator past no other element. |
| UtpConnections.UtpConnection.OnWrite | dutil/UTPConnection.cpp:55-69 | The write joins the stream; queues and stream stay in step; what the transport takes is the next part of the stream, as much as its answers allow, when no other write waits. |
| UtpConnections.UtpConnection.OnHandleWrite | dutil/UTPConnection.cpp:88-152 | Completions are in order and once each, without error only after all bytes were acknowledged; what the transport takes is the next part of the stream; the queue never underflows. |
| UtpConnections.UtpConnection.PushOut | dutil/UTPConnection.cpp:126-151 | Hands over the next bytes of the stream, offering the first waiting write until the transport refuses, fails or is offered nothing; an empty write at the head stops everything behind it. |
| UtpConnections.RoomTakesAll | dutil/UTPConnection.cpp:126-151 | A transport with room for every waiting write takes them all. |
| UtpConnections.NoUnderflow | dutil/UTPConnection.cpp:98-113 | While acknowledged bytes are fewer than taken ones, some write is waiting. |
| UtpConnections.AckedIsDone | dutil/UTPConnection.cpp:98-113 | Every non-empty write whose bytes are all acknowledged has completed. |
| UtpConnections.RunInStep | dutil/UTPConnection.cpp:88-152 | In every run of a connection over its socket, the bytes the socket accepted and reported are those the connection handed over and saw acknowledged. |
| UtpConnections.MovesTwice | dutil/UTPConnection.cpp:88-152 | Two reports within one event of the socket amount to one. |
| UtpConnections.ReportedWasTaken | libutp/utp_internal.cpp:2318-2321 | In every run of a connection over its socket, on_sent reports no more bytes than were handed over and not yet acknowledged: what OnHandleWrite asks of its caller. |
| UtpConnections.CompletedIsDelivered | dutil/UTPConnection.cpp:88-152 | In every run of a connection over its socket, including writes made from the sent callback, a write that completed without error is in place in what the peer delivered. |
| PortOrder.LowerBound | dnode/PortReservation.h:32-44 | Bisection by the comparer finds the boundary in a set sorted by the present keys. |
| PortOrder.Rekey | dnode/PortAllocator.cpp:154-161 | Erasing by key finds the port, and after the change of key and the insertion the set again holds every port once, sorted. |
| PortOrder.RekeyAll | dnode/PortAllocator.cpp:154-161 | Gives all ports of a reservation the new decay time and no other port, keeping the set sorted. |
| PortOrder.ReleaseAll | dnode/PortAllocator.cpp:244-259 | Frees all ports of a reservation, starts the decay of kept alive ones, and keeps the set sorted. |
| PortOrder.NoneAfter | dnode/PortAllocator.cpp:331-339 | Stopping at the first port that has not decayed misses none. |
| PortOrder.ReservePorts | dnode/PortAllocator.cpp:324-352 | Succeeds exactly when n > 0 and at least n ports are free and decayed, then takes the n that decayed first; otherwise changes nothing. |
| PortOrder.NextDecay | dnode/PortAllocator.cpp:296-307 | Finds the earliest decay that is still to come. |
| PortInvariant.StepKeeps | dnode/PortAllocator.cpp:145-380 | Every section, in any interleaving, keeps: the counters are the numbers of ports per status and within quota; every reserved port is in one reservation, once; each waiter waits once and has no ports; one timer runs while a port decays and is in time. |
| PortInvariant.GrantKeeps | dnode/PortAllocator.cpp:354-380 | Handing ports to a reservation keeps the accounts and the owners. |
| PortInvariant.ReleaseKeeps | dnode/PortAllocator.cpp:215-283 | Freeing a reservation keeps them, and starts the timer when a kept alive port starts to decay. |
| PortInvariant.KeepaliveKeeps | dnode/PortAllocator.cpp:175-213 | Keeping one port alive frees exactly the others. |
| PortInvariant.FinishTimerKeeps | dnode/PortAllocator.cpp:285-315 | The timer posted anew is in time for every port still decaying. |
| PortWakeup.RunSafe | dnode/PortAllocator.cpp:145-380 | All of this in every state of every run; and a request that could be served always has something under way that will serve it, unless one of two gaps was hit. |
| PortWakeup.StepWoken | dnode/PortAllocator.cpp:145-380 | A step leaves a servable request with nothing under way exactly when it is a cancellation or a timeout of the two kinds below. |
| PortWakeup.CancelWoken | dnode/PortAllocator.cpp:219-235 | Cancelling a waiting request loses the wakeup of the next one exactly when it was the head, the next could be served, and nothing was under way. |
| PortWakeup.FinishTimerWoken | dnode/PortAllocator.cpp:285-315 | The timeout loses a wakeup exactly when no run is posted, no port decays after its last clock reading, and a head within quota asks for more ports than could be picked when its class was looked at but no more than can be picked now. |
| PortWakeup.OverlookedPort | dnode/PortAllocator.cpp:285-315 | That takes a port whose decay ends between two clock readings of the timeout. |
| PortWakeup.CancelForgets | dnode/PortAllocator.cpp:219-235 | A run with such a cancellation: a request that could be served is left with nothing under way. |
| PortWakeup.TimeoutForgets | dnode/PortAllocator.cpp:285-315 | A run with such a timeout. |
| PortWakeup.FirstComeFirstServed | dnode/PortAllocator.cpp:354-380 | In every step only the first waiter of a class can get ports, exactly as many as it asked for. |
| PortWakeup.TimerInTime | dnode/PortAllocator.cpp:163-172 | While a port decays the timer runs and is set for no later than one ms after the decay ends. |
| PortWakeup.PostedInTime | dnode/PortAllocator.cpp:310-314 | Handed to the reactor later, it is late by no more than that delay. |
| PortRuns.PortsRest | dnode/PortAllocator.cpp:145-283 | In every run, a port that is used, or given up after it was kept alive, is not taken for another reservation before its decay time has passed. |
| PortRuns.DecayExactly | dnode/PortAllocator.cpp:145-283 | The decay time of a port moves exactly when it is used, kept alive, or given up after that. |
| PortRuns.HeldExactly | dnode/PortAllocator.cpp:22-380 | A reservation gets ports exactly when they can be had within the quota, as many as asked for, free and decayed; it keeps its first port when kept alive and none when freed, and is changed by nothing else. |
| PortRuns.QueueExactly | dnode/PortAllocator.cpp:53-68 | A waiting request keeps its place until those before it are served or cancelled, leaves exactly by being served as the head or cancelled, and a new one waits behind all others. |
| PortRuns.FirstWaiter | dnode/PortAllocator.cpp:53-68 | The same for an empty queue. |
| PortAllocators.PortAllocator.constructor | dnode/PortAllocator.cpp:6-20 | All ports are in the set, free and decayed. |
| PortAllocators.PortAllocator.Reserve | dnode/PortAllocator.cpp:31-51 | Succeeds exactly when 1 <= n, the quota allows n and n ports are free and decayed; is a step of the machine. |
| PortAllocators.PortAllocator.ReserveBestEffort | dnode/PortAllocator.cpp:53-68 | Is a step of the machine. |
| PortAllocators.PortAllocator.UseReservation | dnode/PortAllocator.cpp:145-173 | Is a step of the machine. |
| PortAllocators.PortAllocator.KeepaliveReservation | dnode/PortAllocator.cpp:175-213 | Is a step of the machine. |
| PortAllocators.PortAllocator.FreeReservation | dnode/PortAllocator.cpp:215-283 | Is a step of the machine: a release, or a cancellation when there are no ports yet. |
| PortAllocators.PortAllocator.ServeHead | dnode/PortAllocator.cpp:358-379 | One turn serves the head exactly when it can be served. |
| PortAllocators.PortAllocator.ProcessRequests | dnode/PortAllocator.cpp:354-380 | Serves waiters in order until the head cannot be served. |
| PortAllocators.PortAllocator.OnProcessRequests | dnode/PortAllocator.cpp:317-322 | Afterwards no waiting request of either class could be served. |
| PortAllocators.PortAllocator.BeginDecayTimeout | dnode/PortAllocator.cpp:285-287 | Is a step of the machine. |
| PortAllocators.PortAllocator.PostTimer | dnode/PortAllocator.cpp:169-172 | Is a step of the machine: the timer is handed over after the lock was released. |
| PortAllocators.PortAllocator.FinishDecayTimeout | dnode/PortAllocator.cpp:292-314 | Is a step of the machine. |
| ReactorSafety.StepKeeps | dutil/SysReactor.cpp:89-303 | Every step of the reactor thread and of any number of other threads keeps the registry, the poll entries, epoll and the waiting removers consistent. |
| ReactorSafety.RemovedIsSilent | dutil/SysReactor.cpp:245-281 | In every interleaving, once remove has given the handle back to another thread, no handler of it is running and none starts until it is added again. |
| ReactorSafety.SilentExactly | dutil/SysReactor.cpp:245-251 | From the moment a handler is found not registered, and until it is added again, it is silent exactly when it was not being run at that moment. |
| ReactorSafety.NoHandleNoPromise | dutil/SysReactor.cpp:245-251 | A remove that returns no handle may return while the handler is running: in this run it does. |
| ReactorSafety.EpollMirrors | dutil/SysReactor.cpp:347-414 | In every state of every run epoll holds exactly the poll entries with events that were not taken out, and the entry of a handler that has its handle is for its own descriptor and not taken out. |
| ReactorSafety.PollWillEnd | dutil/SysReactor.cpp:255-262 | A remover that waits for the poll to end has a signal pending that ends it. |
| ReactorRuns.RunExactly | dutil/SysReactor.cpp:139-179 | In every state of every run a handler runs after a step exactly when the item dispatched is on a descriptor whose entry carries the cookie the handler is registered under and asks for that kind of event, or when it was running and goes on. |
| ReactorRuns.EventsReachTheirHandler | dutil/SysReactor.cpp:139-179 | From an update pass until it is added, updated or removed again, a registered handler is run for an item exactly when the item is on its own descriptor and of a kind it was registered for. |
| ReactorRuns.RegisteredExactly | dutil/SysReactor.cpp:231-303 | A handler is registered from its add to its remove, for the events of its last add or update. |
| ReactorRuns.ChangesNoticed | dutil/SysReactor.cpp:231-303 | In every state of every run in which the thread polls or is about to, either a signal is there that ends the poll, or the entries polled are exactly those of the registered handlers. |
| ReactorRuns.GivenBackNotPolled | dutil/SysReactor.cpp:266-280 | In every state of every run a descriptor is in epoll only while some handler has it as its handle. |
| SysReactors.SysReactor.AddHandler | dutil/SysReactor.cpp:231-243 | Is a step of the machine. |
| SysReactors.SysReactor.UpdateHandler | dutil/SysReactor.cpp:283-303 | Is a step of the machine. |
| SysReactors.SysReactor.RemoveLocal | dutil/SysReactor.cpp:245-281 | On the reactor thread: unregisters, leaves epoll, gives the handle back; nothing for a handler that is not registered. |
| SysReactors.SysReactor.RemoveStart | dutil/SysReactor.cpp:245-258 | On another thread, up to the wait. |
| SysReactors.SysReactor.RemoveFinish | dutil/SysReactor.cpp:259-280 | After the wait. |
| SysReactors.SysReactor.ProcessUpdates | dutil/SysReactor.cpp:347-414 | Both loops leave the entries and epoll exactly as the registered handlers ask; the duplicate descriptor they guard against cannot occur. |
| SysReactors.DropAndChange | dutil/SysReactor.cpp:351-382 | Drops the entries of handlers that are gone and brings the others up to date, with epoll in step. |
| SysReactors.AddMissing | dutil/SysReactor.cpp:384-413 | Adds an entry for each handler without one. |
| SysReactors.SysReactor.DispatchNext | dutil/SysReactor.cpp:139-179 | Runs a handler exactly if the entry of the descriptor carries the cookie it is registered under at that moment and asks for that kind of event; it is noted as current under the lock. |
| NodeQueue.StepKeeps | dnode/DMasterClient.cpp:118-984 | Every section keeps: queued ids are distinct, known and not started; only the head waits for the master; no connection is forgotten; at most one symmetric connect session runs; the queue never stalls. |
| NodeQueue.RunInv | dnode/DMasterClient.cpp:118-984 | So does every run. |
| NodeQueue.Unanswered | dnode/DMasterClient.cpp:129-212 | In every state of every run a CONN_CREATE is unanswered exactly when its connection waits for the master, and is then the head of the queue, or was closed while it waited and not answered since. |
| NodeQueue.TwoUnanswered | dnode/DMasterClient.cpp:176-212 | A run in which two are unanswered at once. |
| NodeQueue.ReusedIdQueuedTwice | dnode/DMasterClient.cpp:137-140 | When the 32-bit counter comes round to an id still waiting, that id is queued twice. |
| NodeQueue.DrainKeeps | dnode/DMasterClient.cpp:863-984 | One call of processRendezvous keeps all this; if it ends the loop, the head waits for something that will drain the queue. |
| NodeRuns.DrainExactly | dnode/DMasterClient.cpp:863-984 | A head whose mode is known, unless it has to wait for a symmetric session to end, leaves the queue, and is in the table afterwards, running and else unchanged, exactly when its session starts; one the master was not asked about is asked about; otherwise nothing changes. |
| NodeRuns.LeavesExactly | dnode/DMasterClient.cpp:176-984 | A connection leaves the table in a step exactly by being closed, refused or ended by the master, by its session or its proxy failing, by its proxy ending, or by being the head whose start failed. |
| NodeRuns.NotForgotten | dnode/DMasterClient.cpp:176-984 | So over every stretch of a run a connection stays in the table until the step in which one of these happens. |
| NodeRuns.EntersExactly | dnode/DMasterClient.cpp:118-174 | It enters exactly by a registration or an invitation, last in the queue; the master is asked at once exactly for a registration into an empty queue with no symmetric session running. |
| NodeRuns.ChangesExactly | dnode/DMasterClient.cpp:602-816 | In between, its mode, status, session and kept port change exactly by their own events. |
| NodeRuns.QueueExactly | dnode/DMasterClient.cpp:176-212 | A queued connection is overtaken by none: the queue loses its head when it starts, the one that is closed or refused, and nothing else. |
| MasterClients.DMasterClient.RegisterConnection | dnode/DMasterClient.cpp:118-174 | Gives a new id, queued last; nothing when not connected. |
| MasterClients.DMasterClient.CloseConnection | dnode/DMasterClient.cpp:176-212 | The connection is gone from table and queue; the master is told exactly when it was pending. |
| MasterClients.DMasterClient.OnFinalStatus | dnode/DMasterClient.cpp:668-685 | Is a step of the machine: the connection is gone from table and queue and counts as answered. |
| MasterClients.DMasterClient.OnConnect | dnode/DMasterClient.cpp:396-427 | Is a step of the machine when it succeeds; otherwise nothing changes. |
| MasterClients.DMasterClient.OnLost | dnode/DMasterClient.cpp:452-464 | Is a step of the machine. |
| MasterClients.DMasterClient.OnRecvMsgConn | dnode/DMasterClient.cpp:530-600 | Is a step of the machine. |
| MasterClients.DMasterClient.OnPending | dnode/DMasterClient.cpp:637-659 | Is a step of the machine. |
| MasterClients.DMasterClient.OnEstablished | dnode/DMasterClient.cpp:660-668 | Is a step of the machine. |
| MasterClients.DMasterClient.OnRendezvous | dnode/DMasterClient.cpp:758-816 | Is a step of the machine; the master is told unless it said so itself. |
| MasterClients.DMasterClient.ProcessRendezvous | dnode/DMasterClient.cpp:863-984 | True exactly when the head can start: it has then left the queue and is in the table, running and else unchanged, exactly when its session started, and all others are unchanged; on false the head waits for the master, which is asked now if it was not, or for the running symmetric session. |
| MasterClients.DMasterClient.DrainQueue | dnode/DMasterClient.cpp:211 | The draining loop ends when callbacks add no work. |
| MasterSafety.StepKeeps | dmaster/Server.cpp:103-433 | Every handler keeps: one persistent session per node; every connection joins two different live persistent sessions, each end in the mode that fits its own NAT and the other's; openings equal final statuses plus open connections. |
| MasterSafety.RunInv | dmaster/Server.cpp:103-433 | So does every run. |
| MasterSafety.LeavesWithOneStatus | dmaster/Server.cpp:335-358 | A connection leaves the table in a step only by one of its two sessions closing it, being replaced or failing; then exactly one final status is sent, to the other end, which is still there, with the code that says how and that end's mode. |
| MasterSafety.ModesComplement | dmaster/Server.cpp:312-324 | Of every connection in every run: an end connects exactly when its session is symmetric, accepts exactly when the other connects, and both are fast exactly when neither session is symmetric. |
| MasterSafety.CreateExactly | dmaster/Server.cpp:261-333 | A connection is created exactly when the session may use the id and is not asking for its own node, both ends have an address, the id is new, the node is known and not both are symmetric; both ends are then sent their own mode; otherwise nothing changes and the session is told which of these it was. |
| MasterSafety.EndsExactly | dmaster/Server.cpp:335-433 | A connection stays in the table, unchanged, exactly until an end closes it, fails, or its node says HELLO anew; only CONN_CREATE adds one. |
| MasterSafety.HelloReplaces | dmaster/Server.cpp:103-123 | After HELLO the one persistent session of the node is the one that said it, with the NAT it told; other nodes keep theirs. |
| MasterSafety.PeerTold | dmaster/Server.cpp:197-259 | The address a short session comes from is told to the other end of its node's connection, exactly when there is one. |
| MasterSafety.WithoutKeeps | dmaster/Server.cpp:414-433 | Removing a session ends exactly its connections, each with one status. |
| MasterSafety.RelaysBetweenEnds | dmaster/Server.cpp:360-400 | READY and NEXT go only from one end of a connection to the other. |
| MasterSafety.RelayExactly | dmaster/Server.cpp:360-400 | They reach the other end exactly when the sender is an end of the connection. |
| Servers.Server.OnAccept | dmaster/Server.cpp:86-101 | Is a step of the machine. |
| Servers.Server.OnSessionStartPersistent | dmaster/Server.cpp:103-123 | Is a step of the machine: an older session of the node is removed. |
| Servers.Server.OnSessionHello | dmaster/Server.cpp:197-259 | Is a step of the machine. |
| Servers.Server.OnSessionConnCreate | dmaster/Server.cpp:261-333 | Is a step of the machine; creates the connection exactly when none of the refusals applies, and tells both ends or the refusal, as `MasterSafety.CreateExactly` says. |
| Servers.Server.OnSessionConnClose | dmaster/Server.cpp:335-358 | Is a step of the machine. |
| Servers.Server.OnSessionReadyNext | dmaster/Server.cpp:360-400 | Is a step of the machine. |
| Servers.Server.FindPersistentSession | dmaster/Server.cpp:402-412 | Finds the persistent session of the node exactly when there is one. |
| Servers.Server.RemoveSession | dmaster/Server.cpp:414-433 | Is a step of the machine. |
| Servers.EndedBy | dmaster/Server.cpp:417-429 | Erasing while iterating removes exactly the connections of the session, telling each other end once. |
| FastSafety.StepKeeps | dnode/RendezvousFastSession.cpp:132-574 | Every event, for an owner with and without best effort, keeps the peer at most one READY behind, the ping counts and at least one token. |
| FastSafety.StepStale | dnode/RendezvousFastSession.cpp:259-283 | Every event keeps: NEXTs of earlier steps that the owner got in this step, has on their way or may yet get are at most two for each step before. |
| FastSafety.SomeoneMoves | dnode/RendezvousFastSession.cpp:492-574 | While both ping in the same step, one can ping or a ping or NEXT is on its way: neither waits for ever. |
| FastSafety.PingsInTurn | dnode/RendezvousFastSession.cpp:385-395 | While both are in one step the peer is at most one ping ahead, and the owner at most one in the first step, three in the second and five in the third; at most 63 and 64 pings a step. |
| FastSafety.AheadByLeftOvers | dnode/RendezvousFastSession.cpp:208-210 | The owner is ahead of its turn by at most one ping for each NEXT of an earlier step that it got in this one, and there are at most two for each step before. |
| FastRuns.BoundsMet | dnode/RendezvousFastSession.cpp:208-210 | Both bounds are met in each of the three steps, by runs in which the owner is one, three and five pings ahead and the peer one. |
| FastRuns.SecondReady | dnode/RendezvousFastSession.cpp:54-59 | A run of an owner without best effort in which the peer is a step further than the owner before anyone has pinged. |
| FastSessions.RendezvousFastSession.OnPingTimeout | dnode/RendezvousFastSession.cpp:492-574 | Is a ping of this side in the exchange when it has the turn, and nothing otherwise; the timer goes on exactly while the session pings. |
| FastSessions.RendezvousFastSession.OnPingSend | dnode/RendezvousFastSession.cpp:385-401 | Is the event of the exchange that puts one NEXT on its way, or ends the session on an error. |
| FastSessions.RendezvousFastSession.OnNext | dnode/RendezvousFastSession.cpp:208-210 | Is the receipt of a NEXT by this side of the exchange. |
| FastSessions.RendezvousFastSession.OnReady | dnode/RendezvousFastSession.cpp:138-193 | Is the receipt of a READY: afterwards both sides are in one step and nothing is left on its way to this side. |
| FastSessions.RendezvousFastSession.OnPortReservation | dnode/RendezvousFastSession.cpp:240-283 | Is the event of the exchange that starts the owner's next step with a READY, or gives the peer's address. |
| FastSessions.RendezvousFastSession.OnAddress | dnode/RendezvousFastSession.cpp:194-257 | Is the event of the exchange from which this side pings, or, for an owner not yet ready, the one that sends READY once more. |
| FastSessions.RendezvousFastSession.Finish | dnode/RendezvousFastSession.cpp:403-461 | Is the end of this side in the exchange. |
| ProxySessions.Relay.Send | dnode/ProxySession.cpp:311-329 | What was read is appended to the stream and written from one or two stretches of the ring; bytes in flight are not touched. |
| ProxySessions.Relay.InFlightIntact | dnode/ProxySession.cpp:311-329 | Until it completes, every outstanding write reads exactly the next bytes of the stream from the ring. |
| ProxySessions.Relay.Post | dnode/ProxySession.cpp:264-275 | A read is posted exactly when the ring has room, never for more than that. |
| ProxySessions.Relay.Completed | dnode/ProxySession.cpp:206-213 | A completion frees exactly the oldest bytes in flight. |
| ProxySessions.ProxySession.OnLocalRecv | dnode/ProxySession.cpp:134-156 | At most one read per direction; none exactly when the ring is full or the local side shut down; the owner is told once. |
| ProxySessions.ProxySession.OnRemoteSend | dnode/ProxySession.cpp:190-226 | Done exactly on error, or when the local side shut down and everything was sent; without error, the completion of the oldest outstanding write. |
| ProxySessions.ProxySession.OnRemoteRecv | dnode/ProxySession.cpp:228-246 | As OnLocalRecv for the other direction. |
| ProxySessions.ProxySession.OnLocalSend | dnode/ProxySession.cpp:104-132 | As OnRemoteSend for the other direction, without shutdown. |
| ProxySessions.EndsExactlyIfInFlight | dnode/ProxySession.cpp:134-226 | After a local shutdown, in any run without errors the session ends only if a write was outstanding at the shutdown, and once everything outstanding has completed it has ended exactly if there was one. |
| ProxySessions.ProxySession.InFlightIsOutstanding | dnode/ProxySession.cpp:311-329 | Bytes in flight to the remote side are outstanding writes to it, none of them empty. |
| ProxySessions.ShutdownFirst | dnode/ProxySession.cpp:134-156 | A session whose local side shuts down before sending anything has nothing outstanding that could end it. |
| UdtSndBuffers.SegmentsFlatten | udt/buffer.cpp:120-150 | The packets of a buffer put together are the buffer. |
| UdtSndBuffers.SegmentsCount | udt/buffer.cpp:122-124 | There are as many as the code computes. |
| UdtSndBuffers.SegmentsFit | udt/buffer.cpp:136-142 | Each holds from one byte to the segment size. |
| UdtSndBuffers.GrowKeeps | udt/buffer.cpp:285-342 | Blocks inserted after the last one leave one cycle through all blocks. |
| UdtSndBuffers.SndBuffer.Increase | udt/buffer.cpp:285-342 | More blocks, same queue. |
| UdtSndBuffers.SndBuffer.AddBuffer | udt/buffer.cpp:120-164 | The packets join the end of the queue; acknowledged and waiting bytes together are all bytes added. |
| UdtSndBuffers.SndBuffer.ReadData | udt/buffer.cpp:217-230 | Gives the packets in order, each once. |
| UdtSndBuffers.SndBuffer.ReadAgain | udt/buffer.cpp:232-266 | Gives the packet at an offset from the acknowledgement point. |
| UdtSndBuffers.SndBuffer.AckData | udt/buffer.cpp:268-278 | Removes exactly a prefix of the queue. |
| UdtRcvBuffers.RcvBuffer.AddData | udt/buffer.cpp:374-389 | The unit is stored, unless it is there already; what was and may be read does not change. |
| UdtRcvBuffers.RcvBuffer.AckData | udt/buffer.cpp:467-475 | Adds exactly the payloads of the acknowledged units to the stream; over any sequence of calls, all reads put together and what may still be read are that stream. |
| UdtRcvBuffers.RcvBuffer.ReadBuffer | udt/buffer.cpp:391-426 | For every read size: gives the next bytes of the stream, as many as asked for or all there are; units used up are freed and counted. |
| UdtRcvBuffers.RcvBuffer.GetRcvDataSize | udt/buffer.cpp:483-489 | The number of acknowledged units not used up. |
| UdtRcvBuffers.RcvBuffer.GetAvailBufSize | udt/buffer.cpp:477-481 | The room left, less one slot. |

## Left out

- uTP congestion control, the advertised window, the clock and retransmission timing: `Quota` and `Tick` parameters decide
  how much may be sent and when a timeout occurs, so the theorems hold for every such choice.
- uTP handshake, RST and ICMP: the model starts when the SYN has been answered; a reset is the event `Failed`.
- uTP MTU probing and the duplicate ack counter: both are inactive or only advise.
- uTP packet headers and the extension chain as bytes: a datagram is a record of its fields.
- utp_writev takes one buffer instead of a list of them; the copying of a list is not modelled.
- Callbacks call utp_write, utp_close, utp_shutdown, utp_read_drained and the deferred acks on their own socket; the error
  callback of a reset (ICMP, RST) runs where `Fail` puts it. A callback does not run the timer or hand in a datagram.
- The bytes a read callback got are entered in `delivered` when the packet is counted, just after the callback.
- The rings of `UtpSocket` are sequence values there; the array form and its growth loop are proved in `Ring`. The plain
  fields of the socket are grouped in two records.
- UtpSocket.UtpSocket.ProcessIncoming: requires that the datagram is not about a turn of the 16-bit space old, and that the
  peer sends nothing after its FIN; `UtpSystem.OnlyStaleness` shows that in every run only the first can fail.
- UtpFlush.WriteSends: for a positive packet size, as the code always has.
- UtpResend.AckAnswers: for a ring at least as long as the window, which `UtpRings.OutAppend` keeps.
- UtpResend.AckReopens: for a State datagram, and a writable callback that does not fill the window again.
- SeqSpace.AckInRangeExact: for an allowance of at least one, the least the code passes.
- UtpSystem.EndToEnd: the claims about held packets are up to the moment the FIN is reached, because the code then sets
  `reorder_count` to zero without clearing the ring.
- UtpHash.HashTable.constructor: an initial number of cells of at least one; with none the code would write past its memory.
- UtpHash.HashTable.Add: the value is written together with the key, where the code returns the element for the caller to
  fill; keys are compared by equality, hashed by any function.
- UTPConnection's read queue and the LTUDP and UDT connections: the same kind of loop as the write queue, without its two
  queues. The transport's answers are parameters.
- Port allocator: reservation objects are ids; a freed one stays as an empty entry. Clock readings are assumed not to come
  within one decay time of the largest time value.
- PortAllocators.PortAllocator.ProcessRequests: for callbacks that leave the allocator alone and one clock reading; otherwise
  the loop is its turns, `ServeHead`, interleaved with other steps.
- PortAllocators.PortAllocator.OnProcessRequests: for callbacks that leave the allocator alone and one clock reading.
- SysReactor: the run and stop calls, the token queue's timing, and epoll failures; epoll's reports are arbitrary. A handler
  is added with a descriptor no other handler has.
- DMasterClient: routing, message bytes, probing and the destructor. The master is assumed to answer each CONN_CREATE once
  and to confirm only started connections; an id is assumed not to be reused while it is in use.
- MasterClients.DMasterClient.RegisterConnection: needs that the 32-bit counter has not come round to an id in use.
- MasterClients.DMasterClient.OnEstablished: needs that the master confirms no connection whose session has yet to start.
- MasterClients.DMasterClient.OnConnect: for the one connect of a client, made before anything is queued.
- Server: message bytes, addresses and the best effort flag; each session is assumed to say HELLO once and only persistent
  sessions to create, close and relay, as the client does.
- FastSessions.RendezvousFastSession.OnPortReservation: the exchange begins when the owner has said READY first, so the
  ports an owner with best effort waits for before that are not part of it.
- UtpConnections.CompletedIsDelivered: the runs last while the connection is open and has had no error.
- Fast rendezvous: sockets, TTL setting, the address exchange with the master beyond its order, and the received ping that
  ends it (`StopA`, `StopB`). Symmetric rendezvous sessions are not modelled.
- ProxySession: connecting, and the one byte sent first. Writes are assumed to complete in order, which `UtpConnection`
  shows for one side.
- UDT: message mode, TTL expiry, files, and the message numbers of packets; a received unit is its payload.
- ReactorSafety.EpollMirrors: that the entries are the handlers' after an update pass is what `EvUpdates` requires;
  `SysReactors.SysReactor.ProcessUpdates` proves it of the loops.
- UdtSndBuffers.SndBuffer.AckData: packets are acknowledged only after they were read, as the sender does.
- MTU discovery, the LTUDP manager, congestion control of UDT, the UDT cache, tun2socks and the three programs: easy next to
  the rest, or thin layers over code that is not part of this model.
