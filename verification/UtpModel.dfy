// The uTP socket over true, unbounded packet numbers: what each entry point of the transport does to the
// sending half, the receiving half and the datagrams it emits. Clocks, congestion control and the advertised
// window enter as parameters (Quota, Tick); everything else follows the code branch by branch.
module UtpModel {
  import opened Common
  import opened SeqSpace

  const OUTGOING_BUFFER_MAX_SIZE: nat := 1024
  const REORDER_BUFFER_MAX_SIZE: nat := 1024
  const DUPLICATE_ACKS_BEFORE_RESEND: nat := 3
  const ACK_NR_ALLOWED_WINDOW: nat := 3
  const MAX_EACK: nat := 128
  const EACK_BITS: nat := 30

  /** An OutgoingPacket. */
  datatype Packet = Packet(data: Bytes, fin: bool, transmissions: nat, needResend: bool)

  type Slot = Option<Packet>

  datatype Kind = Data | Fin | State

  /** A datagram, with the true numbers of which it carries the low 16 bits. */
  datatype Msg = Msg(kind: Kind, num: int, ack: int, eack: Option<seq<bool>>, data: Bytes)

  /** The sending half: `window` holds cur_window_packets slots, oldest first, ending just before seqNr.
      `written` (the payload of every packet ever queued) and `popped` (bytes that left outbuf_sizes) are history. */
  datatype Snd = Snd(seqNr: int, window: seq<Slot>, sizes: seq<nat>, curWindow: int, finSent: bool,
                     written: seq<Bytes>, popped: nat)

  /** The receiving half. `handing` says that packet ackNr + 1 has left the reorder buffer and is being handed up;
      `consumed` (payloads taken in order) and `delivered` (bytes handed up) are history. */
  datatype Rcv = Rcv(ackNr: int, held: map<int, Bytes>, handing: bool, reorder: nat, eof: Option<int>,
                     finReached: bool, shutdown: bool, consumed: seq<Bytes>, delivered: Bytes)

  datatype ConnState = SynRecv | Connected | ConnectedFull | Reset | Destroy

  /** `accepted` (the bytes utp_writev said it took), `reported` (the bytes on_sent was told of) and `outbox` are history. */
  datatype Socket = Socket(snd: Snd, rcv: Rcv, state: ConnState, finAcked: bool, closeRequested: bool,
                           fastTimeout: bool, fastResend: int, ackPending: bool, accepted: Bytes, reported: nat,
                           outbox: seq<Msg>)

  /** A socket as the handshake leaves it. */
  function AfterHandshake(seqNr: int, ackNr: int, state: ConnState, fastResend: int): Socket {
    Socket(Snd(seqNr, [], [], 0, false, [], 0),
           Rcv(ackNr, map[], false, 0, None, false, false, [], []),
           state, false, false, false, fastResend, false, [], 0, [])
  }

  /** get_packet_size() and min(max_window, opt_sndbuf, max_window_user) at the time of a call. */
  datatype Quota = Quota(packetSize: nat, maxSend: nat)

  // ---------------------------------------------------------------- sending half

  function Head(s: Snd): int {
    s.seqNr - |s.window|
  }

  /** The bytes a slot contributes to cur_window: transmitted, not marked for resend, not acked. */
  function InFlight(o: Slot): nat {
    if o.Some? && o.value.transmissions > 0 && !o.value.needResend then |o.value.data| else 0
  }

  function InFlightSum(w: seq<Slot>): nat {
    if w == [] then 0 else InFlight(w[0]) + InFlightSum(w[1..])
  }

  predicate Unsent(o: Slot) {
    o.Some? && o.value.transmissions == 0
  }

  function Sent(p: Packet): Packet {
    p.(transmissions := p.transmissions + 1, needResend := false)
  }

  /** send_packet, the window part. */
  function SndTransmit(s: Snd, i: nat): Snd
    requires i < |s.window| && s.window[i].Some?
  {
    var p := s.window[i].value;
    s.(curWindow := if p.transmissions == 0 || p.needResend then s.curWindow + |p.data| else s.curWindow,
       window := s.window[i := Some(Sent(p))])
  }

  /** The branch of write_outgoing_packet that queues a new packet. */
  function SndAppend(s: Snd, data: Bytes, fin: bool): Snd {
    s.(seqNr := s.seqNr + 1,
       window := s.window + [Some(Packet(data, fin, 0, false))],
       sizes := s.sizes + [|data|],
       written := s.written + [data])
  }

  predicate CanExtend(s: Snd, q: Quota) {
    s.window != [] && Unsent(s.window[|s.window| - 1]) && |s.window[|s.window| - 1].value.data| < q.packetSize
  }

  /** The branch of write_outgoing_packet that fills up the newest, still unsent packet. */
  function SndExtend(s: Snd, more: Bytes): Snd
    requires s.window != [] && Unsent(s.window[|s.window| - 1])
    requires |s.sizes| == |s.window| <= |s.written|
  {
    var n := |s.window| - 1;
    var p := s.window[n].value;
    s.(window := s.window[n := Some(p.(data := p.data + more))],
       sizes := s.sizes[n := |p.data| + |more|],
       written := s.written[|s.written| - 1 := s.written[|s.written| - 1] + more])
  }

  /** ack_packet on a transmitted packet. */
  function SndAck(s: Snd, i: nat): Snd
    requires i < |s.window| && s.window[i].Some?
  {
    var p := s.window[i].value;
    s.(curWindow := if p.needResend then s.curWindow else s.curWindow - |p.data|,
       window := s.window[i := None])
  }

  /** One step of the window's old end: cur_window_packets-- and outbuf_sizes.pop_front(). */
  function SndPop(s: Snd): Snd
    requires s.window != [] && s.sizes != []
  {
    s.(window := s.window[1..], sizes := s.sizes[1..], popped := s.popped + s.sizes[0])
  }

  function Lost(o: Slot): Slot {
    if o.Some? && o.value.transmissions > 0 then Some(o.value.(needResend := true)) else o
  }

  /** check_timeouts: every packet in flight is considered lost. */
  function SndLoseAll(s: Snd): Snd {
    s.(window := seq(|s.window|, i requires 0 <= i < |s.window| => Lost(s.window[i])),
       curWindow := s.curWindow - InFlightSum(s.window))
  }

  predicate IsFull(s: Snd, bytes: nat, q: Quota) {
    || |s.window| >= OUTGOING_BUFFER_MAX_SIZE - 1
    || s.curWindow + (if bytes > q.packetSize then q.packetSize else bytes) > q.maxSend
  }

  /** The acks loop of utp_process_incoming: ack the oldest packet and pop it, `n` times,
      stopping at a packet that was never transmitted. */
  function SndAckLoop(s: Snd, n: nat): (t: Snd)
    requires |s.sizes| == |s.window|
    ensures |t.sizes| == |t.window| <= |s.window| && t.popped >= s.popped && t.written == s.written
    decreases n
  {
    if n == 0 || s.window == [] || Unsent(s.window[0]) then s
    else SndAckLoop(SndPop(if s.window[0].None? then s else SndAck(s, 0)), n - 1)
  }

  /** The loop after it: drop old slots that an earlier selective ack already emptied. */
  function SndDropAcked(s: Snd): (t: Snd)
    requires |s.sizes| == |s.window|
    ensures |t.sizes| == |t.window| <= |s.window| && t.popped >= s.popped && t.written == s.written
    decreases |s.window|
  {
    if s.window == [] || s.window[0].Some? then s else SndDropAcked(SndPop(s))
  }

  function AckCount(s: Snd, ack: int): nat {
    var a := ack - (Head(s) - 1);
    if 0 <= a <= |s.window| then a else 0
  }

  /** State of the selective_ack scan: the stack of packet numbers to resend is `resends`, top last. */
  datatype Scan = Scan(snd: Snd, count: nat, resends: seq<int>)

  function Push(stack: seq<int>, v: int): seq<int> {
    (if |stack| >= MAX_EACK - 2 then stack[MAX_EACK / 2..] else stack) + [v]
  }

  function SackStep(sc: Scan, base: int, mask: seq<bool>, bits: int, fastResend: int): Scan
    requires -1 <= bits < |mask|
  {
    var v := base + bits;
    var i := v - Head(sc.snd);
    if !(1 <= i < |sc.snd.window|) then sc else
    var bitSet := bits >= 0 && mask[bits];
    var sc' := sc.(count := if bitSet then sc.count + 1 else sc.count);
    if sc.snd.window[i].None? || Unsent(sc.snd.window[i]) then sc'
    else if bitSet then sc'.(snd := SndAck(sc.snd, i))
    else if (v - fastResend) % M <= OUTGOING_BUFFER_MAX_SIZE && sc'.count >= DUPLICATE_ACKS_BEFORE_RESEND then
      sc'.(resends := Push(sc'.resends, v))
    else sc'
  }

  function SackScan(sc: Scan, base: int, mask: seq<bool>, bits: int, fastResend: int): Scan
    requires -1 <= bits < |mask|
    decreases bits + 1
  {
    var sc' := SackStep(sc, base, mask, bits, fastResend);
    if bits == -1 then sc' else SackScan(sc', base, mask, bits - 1, fastResend)
  }

  // ---------------------------------------------------------------- socket: emitting

  function KindOf(p: Packet): Kind {
    if p.fin then Fin else Data
  }

  /** send_packet. */
  function Transmit(s: Socket, i: nat): Socket
    requires i < |s.snd.window| && s.snd.window[i].Some?
  {
    var p := s.snd.window[i].value;
    s.(snd := SndTransmit(s.snd, i),
       ackPending := false,
       outbox := s.outbox + [Msg(KindOf(p), Head(s.snd) + i, s.rcv.ackNr, None, p.data)])
  }

  /** The selective-ack mask for cumulative ack `ack`: bit i stands for packet ack + 2 + i. */
  function EackMask(r: Rcv, ack: int): (mask: seq<bool>)
    ensures |mask| == 32
    ensures forall i :: 0 <= i < 32 ==> (mask[i] <==> i < EACK_BITS && ack + 2 + i in r.held)
  {
    seq(32, i => i < EACK_BITS && ack + 2 + i in r.held)
  }

  /** send_ack; send_keep_alive passes back == 1. */
  function SendAck(s: Socket, back: nat): Socket {
    var ack := s.rcv.ackNr - back;
    var eack := if s.rcv.reorder != 0 && !s.rcv.finReached then Some(EackMask(s.rcv, ack)) else None;
    s.(ackPending := false, outbox := s.outbox + [Msg(State, s.snd.seqNr, ack, eack, [])])
  }

  function FlushFrom(s: Socket, i: nat, q: Quota): Socket
    decreases |s.snd.window| - i
  {
    var w := s.snd.window;
    if i >= |w| then s
    else if w[i].None? || (w[i].value.transmissions > 0 && !w[i].value.needResend) then FlushFrom(s, i + 1, q)
    else if IsFull(s.snd, q.packetSize, q) then s
    else if i != |w| - 1 || |w| == 1 || |w[i].value.data| >= q.packetSize then FlushFrom(Transmit(s, i), i + 1, q)
    else FlushFrom(s, i + 1, q)
  }

  function Flush(s: Socket, q: Quota): Socket {
    FlushFrom(s, 0, q)
  }

  // ---------------------------------------------------------------- socket: entry points of the upper layer

  function Min(a: int, b: int): int {
    if a < b then a else b
  }

  /** write_outgoing_packet up to the flush: top up the last unsent packet, then queue the rest. */
  function Enqueue(s: Snd, data: Bytes, fin: bool, q: Quota): Snd
    requires |s.sizes| == |s.window| <= |s.written|
  {
    if data != [] && CanExtend(s, q) then
      var room := q.packetSize - |s.window[|s.window| - 1].value.data|;
      if |data| <= room then SndExtend(s, data)
      else SndAppend(SndExtend(s, data[..room]), data[room..], fin)
    else
      SndAppend(s, data, fin)
  }

  function WriteOutgoing(s: Socket, data: Bytes, fin: bool, q: Quota): Socket
    requires |s.snd.sizes| == |s.snd.window| <= |s.snd.written|
  {
    Flush(s.(snd := Enqueue(s.snd, data, fin, q)), q)
  }

  predicate Shaped(s: Snd) {
    |s.sizes| == |s.window| <= |s.written|
  }

  lemma {:induction false} FlushShape(s: Socket, i: nat, q: Quota)
    ensures var t := FlushFrom(s, i, q);
            && t.snd.sizes == s.snd.sizes && t.snd.written == s.snd.written && t.snd.seqNr == s.snd.seqNr
            && t.snd.finSent == s.snd.finSent && t.snd.popped == s.snd.popped && |t.snd.window| == |s.snd.window|
            && t.rcv == s.rcv && t.state == s.state && t.finAcked == s.finAcked
            && t.closeRequested == s.closeRequested && t.fastTimeout == s.fastTimeout
            && t.fastResend == s.fastResend && t.accepted == s.accepted && t.reported == s.reported
    decreases |s.snd.window| - i
  {
    var w := s.snd.window;
    if i >= |w| {
    } else if w[i].None? || (w[i].value.transmissions > 0 && !w[i].value.needResend) {
      FlushShape(s, i + 1, q);
    } else if IsFull(s.snd, q.packetSize, q) {
    } else if i != |w| - 1 || |w| == 1 || |w[i].value.data| >= q.packetSize {
      FlushShape(Transmit(s, i), i + 1, q);
    } else {
      FlushShape(s, i + 1, q);
    }
  }

  /** utp_writev's loop; the second result is the number of bytes accepted. */
  function WriteLoop(s: Socket, data: Bytes, q: Quota): (r: (Socket, nat))
    requires Shaped(s.snd)
    ensures r.1 <= |data| && Shaped(r.0.snd) && r.0.rcv == s.rcv
    decreases |data|
  {
    var num := Min(|data|, q.packetSize);
    if IsFull(s.snd, num, q) then
      (if IsFull(s.snd, q.packetSize, q) then s.(state := ConnectedFull) else s, 0)
    else
      FlushShape(s.(snd := Enqueue(s.snd, data[..num], false, q)), 0, q);
      var s' := WriteOutgoing(s, data[..num], false, q);
      if num == 0 || |data| == num then (s', num)
      else
        var r := WriteLoop(s', data[num..], q);
        (r.0, num + r.1)
  }

  function Write(s: Socket, data: Bytes, q: Quota): (r: (Socket, nat))
    requires Shaped(s.snd)
    ensures r.1 <= |data| && Shaped(r.0.snd) && r.0.rcv == s.rcv
  {
    if s.state != Connected || s.snd.finSent then (s, 0) else WriteLoop(s, data, q)
  }

  function SendFin(s: Socket, q: Quota): (t: Socket)
    requires Shaped(s.snd)
    ensures Shaped(t.snd) && t.rcv == s.rcv
  {
    FlushShape(s.(snd := SndAppend(s.snd.(finSent := true), [], true)), 0, q);
    WriteOutgoing(s.(snd := s.snd.(finSent := true)), [], true, q)
  }

  function BeginClose(s: Socket): Socket {
    s.(rcv := s.rcv.(shutdown := true), closeRequested := true)
  }

  function EndClose(s: Socket, q: Quota): Socket
    requires Shaped(s.snd)
  {
    if !s.snd.finSent then SendFin(s, q) else if s.finAcked then s.(state := Destroy) else s
  }

  /** utp_close. */
  function Close(s: Socket, q: Quota): Socket
    requires Shaped(s.snd)
  {
    if s.state == Connected || s.state == ConnectedFull then EndClose(BeginClose(s), q) else s.(state := Destroy)
  }

  /** utp_shutdown. */
  function Shutdown(s: Socket, rd: bool, wr: bool, q: Quota): Socket
    requires Shaped(s.snd)
  {
    var s' := if rd then s.(rcv := s.rcv.(shutdown := true)) else s;
    if wr && (s'.state == Connected || s'.state == ConnectedFull) && !s'.snd.finSent then SendFin(s', q) else s'
  }

  /** RST, ICMP error or retransmission giving up. */
  function Abort(s: Socket): Socket {
    s.(state := if s.closeRequested then Destroy else Reset)
  }

  /** utp_read_drained: the advertised window has `grown`, from `zero` or not. */
  function ReadDrained(s: Socket, grown: bool, zero: bool): Socket {
    if !grown then s else if zero then SendAck(s, 0) else s.(ackPending := true)
  }

  /** utp_issue_deferred_acks for one socket. */
  function DeferredAck(s: Socket): Socket {
    if s.ackPending then SendAck(s, 0) else s
  }

  // ---------------------------------------------------------------- calls of the upper layer, also from its callbacks

  datatype Call =
    | CallWrite(data: Bytes, q: Quota)
    | CallClose(q: Quota)
    | CallShutdown(rd: bool, wr: bool, q: Quota)
    | CallReadDrained(grown: bool, zero: bool)
    | CallDeferredAck

  /** All a call changes in the receiving half is that nobody reads any more. */
  predicate OnlyShut(r: Rcv, t: Rcv) {
    t == r || t == r.(shutdown := true)
  }

  function DoCall(s: Socket, c: Call): (t: Socket)
    requires Shaped(s.snd)
    ensures Shaped(t.snd) && OnlyShut(s.rcv, t.rcv)
  {
    match c
    case CallWrite(data, q) => var r := Write(s, data, q); r.0.(accepted := s.accepted + data[..r.1])
    case CallClose(q) => Close(s, q)
    case CallShutdown(rd, wr, q) => Shutdown(s, rd, wr, q)
    case CallReadDrained(grown, zero) => ReadDrained(s, grown, zero)
    case CallDeferredAck => DeferredAck(s)
  }

  /** What one callback does: its calls, in order. */
  function DoCalls(s: Socket, cs: seq<Call>): (t: Socket)
    requires Shaped(s.snd)
    ensures Shaped(t.snd) && OnlyShut(s.rcv, t.rcv)
    decreases |cs|
  {
    if cs == [] then s else DoCalls(DoCall(s, cs[0]), cs[1..])
  }

  /** The calls made from the callbacks of one utp_process_incoming or check_timeouts; on_read runs once for each
      payload handed up and takes the next entry of `read`, or makes no call when there is none left. */
  datatype Callbacks = Callbacks(sent: seq<Call>, writable: seq<Call>, read: seq<seq<Call>>, eof: seq<Call>,
                                 error: seq<Call>)

  // ---------------------------------------------------------------- socket: the timer

  /** What the clock says at a check_timeouts call. */
  datatype Tick = Tick(expired: bool, giveUp: bool, dead: bool, idle: bool, before: Quota, after: Quota)

  function OnExpired(s: Socket): Socket {
    var s' := s.(snd := SndLoseAll(s.snd));
    if s'.snd.window != [] && s'.snd.window[0].Some? then Transmit(s'.(fastTimeout := true), 0) else s'
  }

  /** CS_CONNECTED_FULL back to CS_CONNECTED, and the callback that says so. */
  function Reopen(s: Socket, q: Quota, cb: Callbacks): (t: Socket)
    requires Shaped(s.snd)
    ensures Shaped(t.snd) && OnlyShut(s.rcv, t.rcv)
  {
    if s.state == ConnectedFull && !IsFull(s.snd, q.packetSize, q) then DoCalls(s.(state := Connected), cb.writable) else s
  }

  function Fail(s: Socket, cb: Callbacks): (t: Socket)
    requires Shaped(s.snd)
    ensures Shaped(t.snd) && OnlyShut(s.rcv, t.rcv)
  {
    DoCalls(Abort(s), cb.error)
  }

  function AfterExpiry(s: Socket, t: Tick, cb: Callbacks): Socket
    requires Shaped(s.snd)
  {
    var s1 := Reopen(s, t.after, cb);
    var s2 := if s1.state != SynRecv && t.dead then Fail(s1, cb) else s1;
    if s2.state != SynRecv && !s2.snd.finSent && t.idle then SendAck(s2, 1) else s2
  }

  /** check_timeouts. */
  function CheckTimeouts(s: Socket, t: Tick, cb: Callbacks): Socket
    requires Shaped(s.snd)
  {
    if s.state == Destroy then s else
    FlushShape(s, 0, t.before);
    var s1 := Flush(s, t.before);
    if s1.state == Reset then s1
    else if t.expired && (s1.state == SynRecv || t.giveUp) then Fail(s1, cb)
    else AfterExpiry(if t.expired then OnExpired(s1) else s1, t, cb)
  }

  // ---------------------------------------------------------------- socket: an incoming datagram

  /** Where the ring of `ring` slots finds packet number v: its window index, or -1. */
  function Locate(s: Snd, ring: nat, v: int): int
    requires ring > 0
  {
    var d := (v - Head(s)) % ring;
    if d < |s.window| then d else -1
  }

  /** selective_ack's resend loop: pop packet numbers off the stack, at most `left` transmissions. */
  function ResendLoop(s: Socket, ring: nat, resends: seq<int>, left: nat): Socket
    requires ring > 0
    decreases |resends|
  {
    if resends == [] || left == 0 then s else
    var v := resends[|resends| - 1];
    var rest := resends[..|resends| - 1];
    var i := Locate(s.snd, ring, v);
    if i < 0 || s.snd.window[i].None? then ResendLoop(s, ring, rest, left)
    else ResendLoop(Transmit(s, i).(fastResend := Wrap(v + 1)), ring, rest, left - 1)
  }

  /** The stack after the scan: the packet just past the cumulative ack goes on top when enough bits were set. */
  function SackResends(sc: Scan, base: int, fastResend: int): seq<int> {
    if (base - 1 - fastResend) % M <= OUTGOING_BUFFER_MAX_SIZE && sc.count >= DUPLICATE_ACKS_BEFORE_RESEND
    then sc.resends + [Wrap(base - 1)] else sc.resends
  }

  /** selective_ack. */
  function SelectiveAck(s: Socket, ring: nat, base: int, mask: seq<bool>): Socket
    requires ring > 0
  {
    if s.snd.window == [] then s else
    var sc := SackScan(Scan(s.snd, 0, []), base, mask, |mask| - 1, s.fastResend);
    ResendLoop(s.(snd := sc.snd), ring, SackResends(sc, base, s.fastResend), 4)
  }

  function FlushNagle(s: Socket): Socket {
    if |s.snd.window| == 1 && Unsent(s.snd.window[0]) then Transmit(s, 0) else s
  }

  function FastRetry(s: Socket): Socket {
    if !s.fastTimeout then s
    else if Wrap(Head(s.snd)) != s.fastResend then s.(fastTimeout := false)
    else if s.snd.window != [] && s.snd.window[0].Some? && !Unsent(s.snd.window[0]) then
      Transmit(s.(fastResend := Wrap(s.fastResend + 1)), 0)
    else s
  }

  function OnHandshake(s: Socket, m: Msg): Socket {
    if m.kind == Data && s.state == SynRecv then s.(state := Connected) else s
  }

  function OnFinAcked(s: Socket, acks: nat): Socket {
    if s.snd.finSent && |s.snd.window| == acks
    then s.(finAcked := true, state := if s.closeRequested then Destroy else s.state) else s
  }

  function MarkResend(s: Socket, m: Msg): Socket {
    if WrappingLess(s.fastResend, Wrap(m.ack + 1)) then s.(fastResend := Wrap(m.ack + 1)) else s
  }

  /** State changes made on an acceptable ack before any packet is released. */
  function OnAckState(s: Socket, m: Msg): Socket {
    MarkResend(OnFinAcked(OnHandshake(s, m), AckCount(s.snd, m.ack)), m)
  }

  /** Cumulatively acked packets leave the window, then those an earlier selective ack emptied behind them. */
  function Release(s: Socket, acks: nat): Socket
    requires |s.snd.sizes| == |s.snd.window|
  {
    s.(snd := SndDropAcked(SndAckLoop(s.snd, acks)))
  }

  function MaybeSack(s: Socket, m: Msg, ring: nat): Socket
    requires ring > 0
  {
    if m.eack.Some? then SelectiveAck(s, ring, m.ack + 2, m.eack.value) else s
  }

  predicate Open(st: ConnState) {
    st == Connected || st == ConnectedFull
  }

  /** on_sent, then CS_CONNECTED_FULL back to CS_CONNECTED. */
  function Report(s: Socket, bytes: nat, q: Quota, cb: Callbacks): (t: Socket)
    requires Shaped(s.snd)
    ensures Shaped(t.snd) && OnlyShut(s.rcv, t.rcv)
  {
    Reopen(if Open(s.state) && bytes > 0 then DoCalls(s.(reported := s.reported + bytes), cb.sent) else s, q, cb)
  }

  lemma {:induction false} ScanSame(sc: Scan, base: int, mask: seq<bool>, bits: int, f: int)
    requires -1 <= bits < |mask|
    ensures var t := SackScan(sc, base, mask, bits, f).snd;
            |t.window| == |sc.snd.window| && t.sizes == sc.snd.sizes && t.written == sc.snd.written && t.popped == sc.snd.popped
    decreases bits + 1
  {
    if bits != -1 {
      ScanSame(SackStep(sc, base, mask, bits, f), base, mask, bits - 1, f);
    }
  }

  lemma {:induction false} ResendSame(s: Socket, ring: nat, resends: seq<int>, left: nat)
    requires ring > 0
    ensures var t := ResendLoop(s, ring, resends, left);
            && |t.snd.window| == |s.snd.window| && t.snd.sizes == s.snd.sizes && t.snd.written == s.snd.written
            && t.snd.popped == s.snd.popped && t.rcv == s.rcv
    decreases |resends|
  {
    if resends == [] || left == 0 {
    } else {
      var v := resends[|resends| - 1];
      var rest := resends[..|resends| - 1];
      var i := Locate(s.snd, ring, v);
      if i < 0 || s.snd.window[i].None? {
        ResendSame(s, ring, rest, left);
      } else {
        ResendSame(Transmit(s, i).(fastResend := Wrap(v + 1)), ring, rest, left - 1);
      }
    }
  }

  /** Same packets, same payloads, same receiving half. */
  predicate SameShape(s: Socket, t: Socket) {
    && |t.snd.window| == |s.snd.window| && t.snd.sizes == s.snd.sizes && t.snd.written == s.snd.written
    && t.snd.popped == s.snd.popped && t.rcv == s.rcv
  }

  lemma RetrySame(s: Socket)
    ensures SameShape(s, FlushNagle(s)) && SameShape(s, FastRetry(s))
  {
    hide Wrap;
  }

  lemma SackSame(s: Socket, m: Msg, ring: nat)
    requires ring > 0
    ensures SameShape(s, MaybeSack(s, m, ring))
  {
    hide SackScan, ResendLoop, SackResends;
    if m.eack.Some? && s.snd.window != [] {
      var mask, base := m.eack.value, m.ack + 2;
      ScanSame(Scan(s.snd, 0, []), base, mask, |mask| - 1, s.fastResend);
      var sc := SackScan(Scan(s.snd, 0, []), base, mask, |mask| - 1, s.fastResend);
      ResendSame(s.(snd := sc.snd), ring, SackResends(sc, base, s.fastResend), 4);
    }
  }

  lemma AckedShape(s: Socket, m: Msg, ring: nat)
    requires Shaped(s.snd) && ring > 0
    ensures var t := Acked(s, m, ring); Shaped(t.snd) && t.rcv == s.rcv && t.snd.popped >= s.snd.popped
  {
    hide SndAckLoop, SndDropAcked, FlushNagle, FastRetry, MaybeSack, AckCount, Wrap, WrappingLess;
    var x := Release(OnAckState(s, m), AckCount(s.snd, m.ack));
    RetrySame(x);
    RetrySame(FlushNagle(x));
    SackSame(FastRetry(FlushNagle(x)), m, ring);
  }

  /** Everything an ack does before the upper layer hears of it. */
  function Acked(s: Socket, m: Msg, ring: nat): (t: Socket)
    requires Shaped(s.snd) && ring > 0
  {
    MaybeSack(FastRetry(FlushNagle(Release(OnAckState(s, m), AckCount(s.snd, m.ack)))), m, ring)
  }

  /** The acknowledgment part of utp_process_incoming. */
  function ProcessAck(s: Socket, m: Msg, ring: nat, q: Quota, cb: Callbacks): (t: Socket)
    requires Shaped(s.snd) && ring > 0
    ensures Shaped(t.snd) && OnlyShut(s.rcv, t.rcv)
  {
    AckedShape(s, m, ring);
    var s1 := Acked(s, m, ring);
    Report(s1, s1.snd.popped - s.snd.popped, q, cb)
  }

  /** on_read for a payload: its callback runs unless the payload is empty or nobody reads. */
  function HandUp(s: Socket, data: Bytes, read: seq<seq<Call>>): (t: Socket)
    requires Shaped(s.snd)
    ensures Shaped(t.snd) && OnlyShut(s.rcv, t.rcv)
  {
    if data != [] && !s.rcv.shutdown && read != [] then DoCalls(s, read[0]) else s
  }

  /** The entries of `read` that remain after a payload. */
  function Rest(s: Socket, data: Bytes, read: seq<seq<Call>>): seq<seq<Call>> {
    if data != [] && !s.rcv.shutdown && read != [] then read[1..] else read
  }

  /** Count a payload as taken; it was handed up (`up`) if somebody was reading before its callback ran. */
  function Take(r: Rcv, data: Bytes, up: bool): Rcv {
    r.(ackNr := r.ackNr + 1,
       consumed := r.consumed + [data],
       delivered := if up then r.delivered + data else r.delivered)
  }

  /** The packet just past ack_nr leaves the reorder buffer. */
  function Lift(r: Rcv): Rcv
    requires r.ackNr + 1 in r.held
  {
    r.(held := r.held - {r.ackNr + 1}, handing := true)
  }

  /** And is counted once its callback has run. */
  function Settle(r: Rcv, data: Bytes, up: bool): Rcv
    requires r.reorder > 0
  {
    Take(r, data, up).(handing := false, reorder := r.reorder - 1)
  }

  /** One packet out of the reorder buffer. */
  function TakeHeld(s: Socket, read: seq<seq<Call>>): (t: Socket)
    requires Shaped(s.snd) && s.rcv.ackNr + 1 in s.rcv.held && s.rcv.reorder > 0
    ensures Shaped(t.snd) && t.rcv.reorder == s.rcv.reorder - 1
  {
    var data := s.rcv.held[s.rcv.ackNr + 1];
    var s1 := HandUp(s.(rcv := Lift(s.rcv)), data, read);
    s1.(rcv := Settle(s1.rcv, data, !s.rcv.shutdown))
  }

  /** The FIN is reached: tell the upper layer, ack, and forget what lies behind it. */
  function ReachFin(s: Socket, cb: Callbacks): (t: Socket)
    requires Shaped(s.snd)
    ensures Shaped(t.snd) && t.rcv.reorder == 0
  {
    var s1 := SendAck(DoCalls(s.(rcv := s.rcv.(finReached := true)), cb.eof), 0);
    s1.(rcv := s1.rcv.(reorder := 0))
  }

  /** The loop that follows an in-order packet. */
  function Drain(s: Socket, cb: Callbacks): (t: Socket)
    requires Shaped(s.snd)
    decreases s.rcv.reorder
  {
    if !s.rcv.finReached && s.rcv.eof == Some(s.rcv.ackNr) then ReachFin(s, cb)
    else if s.rcv.reorder == 0 || s.rcv.ackNr + 1 !in s.rcv.held then s
    else Drain(TakeHeld(s, cb.read), cb.(read := Rest(s, s.rcv.held[s.rcv.ackNr + 1], cb.read)))
  }

  function NoteFin(r: Rcv, m: Msg): Rcv {
    if m.kind == Fin && r.eof.None? then r.(eof := Some(m.num)) else r
  }

  /** An in-order packet: hand it up, count it, then work off the packets that waited for it. */
  function TakeNew(s: Socket, data: Bytes, read: seq<seq<Call>>): (t: Socket)
    requires Shaped(s.snd)
    ensures Shaped(t.snd)
  {
    var s1 := HandUp(s, data, read);
    s1.(rcv := Take(s1.rcv, data, !s.rcv.shutdown))
  }

  function Hold(r: Rcv, k: int, data: Bytes): Rcv {
    r.(held := r.held[k := data], reorder := r.reorder + 1)
  }

  /** A packet `offset` past the next expected one, on an open connection. */
  function Receive(s: Socket, m: Msg, offset: nat, cb: Callbacks): Socket
    requires Shaped(s.snd)
  {
    if offset == 0 then
      Drain(TakeNew(s, m.data, cb.read), cb.(read := Rest(s, m.data, cb.read))).(ackPending := true)
    else if s.rcv.eof.Some? && Wrap(m.num) > Wrap(s.rcv.eof.value) then s
    else if m.num in s.rcv.held then s
    else s.(rcv := Hold(s.rcv, m.num, m.data), ackPending := true)
  }

  /** The data part of utp_process_incoming. */
  function ProcessData(s: Socket, m: Msg, offset: nat, cb: Callbacks): Socket
    requires Shaped(s.snd)
  {
    if m.kind == State then s
    else if Open(s.state) then Receive(s.(rcv := NoteFin(s.rcv, m)), m, offset, cb)
    else if s.finAcked && s.state == Destroy && offset == 0 && m.kind == Fin
    then SendAck(s.(rcv := Take(s.rcv, [], false)), 0) else s
  }

  /** utp_process_incoming. */
  function Incoming(s: Socket, m: Msg, ring: nat, q: Quota, cb: Callbacks): Socket
    requires Shaped(s.snd) && ring > 0
  {
    var offset := m.num - s.rcv.ackNr - 1;
    if !(0 <= s.snd.seqNr - 1 - m.ack <= |s.snd.window| + ACK_NR_ALLOWED_WINDOW) then s
    else if !(0 <= offset < REORDER_BUFFER_MAX_SIZE) then
      if -(REORDER_BUFFER_MAX_SIZE as int) <= offset < 0 && m.kind != State then s.(ackPending := true) else s
    else ProcessData(ProcessAck(s, m, ring, q, cb), m, offset, cb)
  }
}
