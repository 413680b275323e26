/** The per-connection logic of the TCP endpoint (re-net, tcp.cpp) as functions on
    values: serial-number arithmetic, segment construction, the input state machine and
    one round of the go-back-n sender. `TcpConn` runs the same logic in place on a
    connection object; `TcpRun` lets two endpoints talk over a faulty network. */
module Tcp {
  import opened Words

  const HALF: int := 0x8000_0000

  const RX_BUFFER_SIZE: int := 2048
  const RX_MSS: u16 := 1460
  const DEFAULT_MSS: u16 := 536
  const MAX_RETX: int := 5

  function Min(a: int, b: int): int { if a < b then a else b }

  // ----- serial numbers (section 3.3 of RFC 793)

  predicate SeqLt(a: u32, b: u32) { W(a - b) >= HALF }

  predicate SeqLe(a: u32, b: u32) { a == b || W(a - b) >= HALF }

  /** Serial order is the order of the unwrapped positions exactly when they are no more
      than 2^31 apart (the ambiguous distance 2^31 itself reads as "less"). */
  lemma SerialOrder(base: int, x: int, y: int)
    requires -M32 < x - y < M32
    ensures SeqLt(W(base + x), W(base + y)) <==> (-HALF <= x - y < 0 || HALF <= x - y)
    ensures SeqLe(W(base + x), W(base + y)) <==> (-HALF <= x - y <= 0 || HALF <= x - y)
    ensures W(base + x) == W(base + y) <==> x == y
  {}

  // ----- segments

  datatype Flags = Flags(fin: bool, syn: bool, rst: bool, psh: bool, ack: bool)
  const ACK := Flags(false, false, false, false, true)
  const ACK_PSH := Flags(false, false, false, true, true)
  const SYN := Flags(false, true, false, false, false)
  const SYN_ACK := Flags(false, true, false, false, true)
  const FIN_ACK := Flags(true, false, false, false, true)
  const RST := Flags(false, false, true, false, false)
  const RST_ACK := Flags(false, false, true, false, true)

  /** `mss` is the value of the maximum-segment-size option, 0 when absent. */
  datatype Segment = Segment(flags: Flags, seqNo: u32, ackNo: u32, wnd: u16, mss: u16, data: seq<u8>)

  datatype State =
    | Closed | Listen | SynSent | SynReceived | Established
    | FinWait1 | FinWait2 | Closing | CloseWait | LastAck | TimeWait

  /** The fields of a connection; `rx` is the content of the receive ring, oldest first. */
  datatype Tcb = Tcb(
    state: State, sndUna: u32, sndNxt: u32, sndWnd: u16, sndMss: u16, retries: nat,
    rcvNxt: u32, rx: seq<u8>, rxFin: bool, rxWndClosed: bool)

  predicate TcbOk(t: Tcb) { |t.rx| <= RX_BUFFER_SIZE && t.sndMss >= 1 }

  function Blank(state: State): Tcb {
    Tcb(state, 0, 0, 0, DEFAULT_MSS, 0, 0, [], false, false)
  }

  function RxFree(t: Tcb): nat
    requires TcbOk(t)
  {
    RX_BUFFER_SIZE - |t.rx|
  }

  /** What send_segment puts on the wire; the acknowledgment and window are read now. */
  function SendSegment(t: Tcb, flags: Flags, seqNo: u32, data: seq<u8>): (r: (Tcb, Segment))
    requires TcbOk(t)
  {
    var wnd: u16 := Min(RxFree(t), 0xffff);
    (if wnd == 0 then t.(rxWndClosed := true) else t,
     Segment(flags, seqNo, if flags.ack then t.rcvNxt else 0, wnd, if flags.syn then RX_MSS else 0, data))
  }

  /** The header of an outgoing segment: the next number expected when it acknowledges, the free
      part of the 2048-byte ring as its window, and on a SYN the largest segment accepted. */
  lemma HeaderIs(t: Tcb, flags: Flags, seqNo: u32, data: seq<u8>)
    requires TcbOk(t)
    ensures var (u, s) := SendSegment(t, flags, seqNo, data);
            && s.flags == flags && s.seqNo == seqNo && s.data == data && s.wnd as int == 2048 - |t.rx|
            && (flags.ack ==> s.ackNo == t.rcvNxt) && (!flags.ack ==> s.ackNo == 0)
            && (flags.syn ==> s.mss == 1460) && (!flags.syn ==> s.mss == 0)
            && u == t.(rxWndClosed := t.rxWndClosed || |t.rx| == 2048)
  {}

  /** The reset that answers a segment matching no connection; never for a reset. */
  function RstFor(s: Segment): seq<Segment> {
    if s.flags.rst then []
    else if s.flags.ack then [Segment(RST, s.ackNo, 0, 0, 0, [])]
    else
      var ctrl := (if s.flags.syn then 1 else 0) + (if s.flags.fin then 1 else 0);
      [Segment(RST_ACK, 0, W(s.seqNo + |s.data| + ctrl), 0, 0, [])]
  }

  function NegotiateMss(mss: u16): (r: u16)
    ensures 1 <= r
  {
    if mss != 0 then Min(mss, RX_MSS) else DEFAULT_MSS
  }

  // ----- input

  /** A call of send_segment that has been made: its arguments. The header is built when
      the called coroutine first runs. */
  datatype Request = Request(flags: Flags, seqNo: u32, data: seq<u8>)

  /** Outcome of one segment: the new fields, the reply requested, the resets sent. */
  datatype Outcome = Outcome(t: Tcb, reply: seq<Request>, rst: seq<Segment>)

  function OnListen(t: Tcb, s: Segment, iss: u32): Outcome {
    if s.flags.rst then Outcome(t, [], [])
    else if s.flags.ack then Outcome(t, [], RstFor(s))
    else if !s.flags.syn then Outcome(t, [], [])
    else
      Outcome(
        t.(rcvNxt := W(s.seqNo + 1), sndMss := NegotiateMss(s.mss), sndWnd := s.wnd,
           sndUna := iss, sndNxt := W(iss + 1), state := SynReceived),
        [Request(SYN_ACK, iss, [])], [])
  }

  function OnSynSent(t: Tcb, s: Segment): Outcome {
    var ackOk := SeqLt(t.sndUna, s.ackNo) && SeqLe(s.ackNo, t.sndNxt);
    if s.flags.ack && !ackOk then Outcome(t, [], RstFor(s))
    else if s.flags.rst then
      Outcome(if s.flags.ack then t.(state := Closed) else t, [], [])
    else if !s.flags.syn || !s.flags.ack then Outcome(t, [], [])
    else
      Outcome(
        t.(rcvNxt := W(s.seqNo + 1), sndMss := NegotiateMss(s.mss), sndUna := s.ackNo,
           sndWnd := s.wnd, state := Established),
        [Request(ACK, t.sndNxt, [])], [])
  }

  predicate AckInRange(t: Tcb, ackNo: u32) {
    SeqLe(ackNo, t.sndNxt) && SeqLe(t.sndUna, ackNo)
  }

  /** State after our FIN, and everything before it, has been acknowledged. */
  function AllAcked(st: State): State {
    match st
    case FinWait1 => FinWait2
    case Closing => TimeWait
    case LastAck => Closed
    case _ => st
  }

  function OnAck(t: Tcb, s: Segment): Tcb {
    if AckInRange(t, s.ackNo) then
      t.(sndUna := s.ackNo, sndWnd := s.wnd,
         state := if s.ackNo == t.sndNxt then AllAcked(t.state) else t.state)
    else t
  }

  predicate Receiving(st: State) { st == Established || st == FinWait1 || st == FinWait2 }

  /** The part of the payload at `rcvNxt` and after, if the payload reaches that far. */
  function Fresh(t: Tcb, s: Segment): seq<u8> {
    if SeqLt(s.seqNo, t.rcvNxt) then
      var skip := W(t.rcvNxt - s.seqNo);
      if skip < |s.data| then s.data[skip..] else []
    else if s.seqNo == t.rcvNxt then s.data
    else []
  }

  function OnData(t: Tcb, s: Segment): (r: Tcb)
    requires TcbOk(t)
    ensures TcbOk(r)
  {
    if Receiving(t.state) then
      var body := Fresh(t, s);
      var n := Min(|body|, RxFree(t));
      t.(rx := t.rx + body[..n], rcvNxt := W(t.rcvNxt + n))
    else t
  }

  function FinState(st: State): State {
    match st
    case Established => CloseWait
    case FinWait1 => Closing
    case FinWait2 => TimeWait
    case _ => st
  }

  function OnFin(t: Tcb, s: Segment): Tcb {
    if s.flags.fin && W(s.seqNo + |s.data|) == t.rcvNxt && !t.rxFin then
      t.(rcvNxt := W(t.rcvNxt + 1), rxFin := true, state := FinState(t.state))
    else t
  }

  /** Ack, data and fin processing of a synchronized connection, then the reply. */
  function Accept(t: Tcb, s: Segment): (r: Outcome)
    requires TcbOk(t)
    ensures TcbOk(r.t)
  {
    var t0 := if t.state == SynReceived then t.(state := Established) else t;
    var t1 := OnAck(t0, s);
    var t2 := OnData(t1, s);
    var t3 := OnFin(t2, s);
    Outcome(t3,
            if t3.rcvNxt != t1.rcvNxt || |s.data| != 0 || s.flags.fin then [Request(ACK, t3.sndNxt, [])] else [],
            [])
  }

  function OnSynchronized(t: Tcb, s: Segment): (r: Outcome)
    requires TcbOk(t)
    ensures TcbOk(r.t)
  {
    if s.flags.rst then
      Outcome(if s.seqNo == t.rcvNxt || t.state == SynReceived then t.(state := Closed) else t, [], [])
    else if t.state == SynReceived && s.flags.syn && W(s.seqNo + 1) == t.rcvNxt then
      Outcome(t, [Request(SYN_ACK, t.sndUna, [])], [])
    else if s.flags.syn && SeqLe(t.rcvNxt, s.seqNo) then Outcome(t.(state := Closed), [], [])
    else if !s.flags.ack then Outcome(t, [], [])
    else if t.state == SynReceived && !AckInRange(t, s.ackNo) then Outcome(t, [], RstFor(s))
    else Accept(t, s)
  }

  /** Everything input() does to the connection a segment is addressed to. A closed
      connection is not in the table, so its segments are answered with a reset. */
  function OnSegment(t: Tcb, s: Segment, iss: u32): (r: Outcome)
    requires TcbOk(t)
    ensures TcbOk(r.t)
  {
    match t.state
    case Closed => Outcome(t, [], RstFor(s))
    case Listen => OnListen(t, s, iss)
    case SynSent => OnSynSent(t, s)
    case _ => OnSynchronized(t, s)
  }

  /** The mss a sender may use: what the peer's option announces, within our own 1460, and the
      default of section 3.1 of RFC 793, 536, without the option. */
  predicate Agreed(mss: u16, announced: u16) {
    if announced == 0 then mss == 536
    else mss <= announced && mss <= 1460 && (mss == announced || mss == 1460)
  }

  /** What an accepted SYN settles: the first sequence number expected, the window, the mss. */
  lemma SynTaken(t: Tcb, s: Segment, iss: u32)
    requires TcbOk(t) && (t.state == State.Listen || t.state == SynSent)
    requires OnSegment(t, s, iss).t.state == SynReceived || OnSegment(t, s, iss).t.state == Established
    ensures var u := OnSegment(t, s, iss).t;
            && s.flags.syn && !s.flags.rst && u.rcvNxt == (s.seqNo as int + 1) % 0x1_0000_0000 && u.sndWnd == s.wnd
            && Agreed(u.sndMss, s.mss) && u.rx == t.rx
            && (t.state == State.Listen ==> u.sndUna == iss && u.sndNxt == (iss as int + 1) % 0x1_0000_0000 && !s.flags.ack)
            && (t.state == SynSent ==> u.sndUna == s.ackNo && u.sndNxt == t.sndNxt && s.flags.ack)
  {
    hide SeqLt, SeqLe, RstFor;
  }

  /** The state diagram of section 3.2 of RFC 793, from Established on: what the segment
      acknowledges and whether it ends the peer's stream decide where it leads. */
  lemma StateMoves(t: Tcb, s: Segment, iss: u32)
    requires TcbOk(t) && FinStates(t.state, t.rxFin) && s.flags.ack && !s.flags.rst && !s.flags.syn
    ensures var u := OnSegment(t, s, iss).t;
            var fin, acked := u.rxFin && !t.rxFin, s.ackNo == t.sndNxt && SeqLe(t.sndUna, t.sndNxt);
            match t.state
            case Established => u.state == if fin then CloseWait else Established
            case FinWait1 => u.state == if acked then (if fin then TimeWait else FinWait2) else if fin then Closing else FinWait1
            case FinWait2 => u.state == if fin then TimeWait else FinWait2
            case CloseWait => u.state == CloseWait
            case Closing => u.state == if acked then TimeWait else Closing
            case LastAck => u.state == if acked then Closed else LastAck
            case TimeWait => u.state == TimeWait
            case _ => true
  {
    hide W, SeqLt, RstFor, NegotiateMss, Fresh;
  }

  /** An acknowledgment of data in flight, or repeated, moves `snd_una` there and takes over the
      window; any other leaves both alone. */
  lemma AckTaken(t: Tcb, s: Segment, iss: u32)
    requires TcbOk(t) && t.state != Closed && t.state != State.Listen && t.state != SynSent && t.state != SynReceived
    requires s.flags.ack && !s.flags.rst && !s.flags.syn && InFlight(t) < HALF && W(s.ackNo - t.sndUna) < HALF
    ensures var u := OnSegment(t, s, iss).t;
            if W(s.ackNo - t.sndUna) <= InFlight(t) then u.sndUna == s.ackNo && u.sndWnd == s.wnd
            else u.sndUna == t.sndUna && u.sndWnd == t.sndWnd
  {
    AckDistance(t, s.ackNo);
    hide W, RstFor, NegotiateMss, Fresh, AckInRange;
  }

  lemma AckDistance(t: Tcb, ackNo: u32)
    requires InFlight(t) < HALF && W(ackNo - t.sndUna) < HALF
    ensures AckInRange(t, ackNo) <==> W(ackNo - t.sndUna) <= InFlight(t)
  {}

  /** What answers a segment: at most one empty acknowledgment, which repeats the SYN or the
      number to be sent next, or one reset, which takes its numbers from the segment (section
      3.4 of RFC 793); a reset is never answered. */
  lemma AnswersAre(t: Tcb, s: Segment, iss: u32)
    requires TcbOk(t)
    ensures var o := OnSegment(t, s, iss);
            && |o.reply| + |o.rst| <= 1 && (s.flags.rst ==> o.reply == [] && o.rst == [])
            && (o.reply != [] ==>
                  var r := o.reply[0];
                  && r.data == [] && r.flags == Flags(false, r.flags.syn, false, false, true)
                  && (r.flags.syn <==> o.t.state == SynReceived) && r.seqNo == if r.flags.syn then o.t.sndUna else o.t.sndNxt)
            && (o.rst != [] ==>
                  var r := o.rst[0];
                  && r.data == [] && r.flags == Flags(false, false, true, false, !s.flags.ack) && r.wnd == 0 && r.mss == 0
                  && (s.flags.ack ==> r.seqNo == s.ackNo && r.ackNo == 0)
                  && (!s.flags.ack ==>
                        && r.seqNo == 0
                        && r.ackNo == (s.seqNo as int + |s.data| + (if s.flags.syn then 1 else 0) + (if s.flags.fin then 1 else 0))
                                      % 0x1_0000_0000))
  {
    hide SeqLt, SeqLe, NegotiateMss, Fresh;
  }

  /** Among open states, the peer's FIN has been consumed exactly in these four. */
  ghost predicate FinStates(st: State, rxFin: bool) {
    st != Closed ==> (rxFin <==> st == CloseWait || st == Closing || st == LastAck || st == TimeWait)
  }

  lemma FinStateOk(st: State)
    requires FinStates(st, false) && st != Closed && st != State.Listen && st != SynSent && st != SynReceived
    ensures FinStates(FinState(st), true) && FinState(st) != Closed
  {}

  /** Once the peer's FIN has been consumed no segment, whatever it carries, adds a byte. */
  lemma NoDataAfterFin(t: Tcb, s: Segment, iss: u32)
    requires TcbOk(t) && FinStates(t.state, t.rxFin) && t.rxFin
    ensures OnSegment(t, s, iss).t.rx == t.rx && OnSegment(t, s, iss).t.rxFin
  {
    hide W, SeqLt, SeqLe, AckInRange, RstFor, NegotiateMss, Fresh;
  }

  // ----- wake-ups

  /** Which of the two events of a connection are notified: `tx`, on which opening, sending
      and closing wait, and `rx`, on which receiving waits. */
  datatype Wakes = Wakes(tx: bool, rx: bool)

  const NOBODY := Wakes(false, false)
  const BOTH := Wakes(true, true)

  function Also(w: Wakes, v: Wakes): Wakes { Wakes(w.tx || v.tx, w.rx || v.rx) }

  function WakesOnAck(t: Tcb, s: Segment): Wakes {
    Wakes(true, AckInRange(t, s.ackNo) && s.ackNo == t.sndNxt && t.state == Closing)
  }

  function WakesOnData(t: Tcb, s: Segment): Wakes
    requires TcbOk(t)
  {
    Wakes(false, |OnData(t, s).rx| > |t.rx|)
  }

  function WakesOnFin(t: Tcb, s: Segment): Wakes {
    if OnFin(t, s).rxFin != t.rxFin then BOTH else NOBODY
  }

  function WakesOnAccept(t: Tcb, s: Segment): Wakes
    requires TcbOk(t)
  {
    var t0 := if t.state == SynReceived then t.(state := Established) else t;
    var t1 := OnAck(t0, s);
    var t2 := OnData(t1, s);
    Also(Also(WakesOnAck(t0, s), WakesOnData(t1, s)), WakesOnFin(t2, s))
  }

  function WakesOnSynSent(t: Tcb, s: Segment): Wakes {
    var ackOk := SeqLt(t.sndUna, s.ackNo) && SeqLe(s.ackNo, t.sndNxt);
    if s.flags.ack && !ackOk then NOBODY
    else if s.flags.rst && s.flags.ack then BOTH
    else NOBODY
  }

  /** An active open is completed first, then acknowledged; the connecting task is notified
      only after that acknowledgment was handed to the network. */
  predicate WakesAfterReply(t: Tcb, s: Segment) {
    t.state == SynSent && OnSynSent(t, s).t.state == Established
  }

  function WakesOnSynchronized(t: Tcb, s: Segment): Wakes
    requires TcbOk(t)
  {
    if s.flags.rst then if s.seqNo == t.rcvNxt || t.state == SynReceived then BOTH else NOBODY
    else if t.state == SynReceived && s.flags.syn && W(s.seqNo + 1) == t.rcvNxt then NOBODY
    else if s.flags.syn && SeqLe(t.rcvNxt, s.seqNo) then BOTH
    else if !s.flags.ack then NOBODY
    else if t.state == SynReceived && !AckInRange(t, s.ackNo) then NOBODY
    else WakesOnAccept(t, s)
  }

  /** Accepting starts by leaving SynReceived. */
  lemma AcceptFrom(t: Tcb, s: Segment)
    requires TcbOk(t) && t.state == SynReceived
    ensures Accept(t, s) == Accept(t.(state := Established), s)
    ensures WakesOnAccept(t, s) == WakesOnAccept(t.(state := Established), s)
  {}

  /** Whom a segment wakes before it is answered. */
  function WakesOf(t: Tcb, s: Segment): Wakes
    requires TcbOk(t)
  {
    match t.state
    case Closed => NOBODY
    case Listen => NOBODY
    case SynSent => WakesOnSynSent(t, s)
    case _ => WakesOnSynchronized(t, s)
  }

  /** recv() has nothing to return yet. */
  predicate RecvWaits(t: Tcb) {
    t.rx == [] && !t.rxFin && t.state != Closed && t.state != State.Listen
  }

  /** No wake-up is lost: a segment that moves anything the opening, sending or closing task
      decides by, or that ends the receiving task's wait, notifies that task. */
  lemma NoLostWakeUp(t: Tcb, s: Segment, iss: u32)
    requires TcbOk(t) && FinStates(t.state, t.rxFin)
    ensures var u := OnSegment(t, s, iss).t;
            && (t.state != State.Listen && (u.sndUna != t.sndUna || u.sndWnd != t.sndWnd || u.state != t.state) ==>
                  WakesOf(t, s).tx || WakesAfterReply(t, s))
            && (RecvWaits(t) && !RecvWaits(u) ==> WakesOf(t, s).rx)
  {
    hide W, SeqLt, SeqLe, RstFor, NegotiateMss;
  }

  // ----- the sender

  /** What the fill loop does next: emit a chunk of `count` bytes, or wait for an event. */
  datatype Fill = Emit(count: nat) | Wait

  function InFlight(t: Tcb): u32 { W(t.sndNxt - t.sndUna) }

  function FillStep(t: Tcb, end: u32): Fill {
    if !SeqLt(t.sndNxt, end) then Wait
    else
      var avail := if t.sndWnd > InFlight(t) then t.sndWnd - InFlight(t) else 0;
      if avail == 0 && InFlight(t) != 0 then Wait
      else Emit(Min(Min(if avail == 0 then 1 else avail, t.sndMss), W(end - t.sndNxt)))
  }

  /** The invariant of send(): in wrapped order base <= snd_una <= snd_nxt <= end. */
  predicate SendInv(t: Tcb, data: seq<u8>, base: u32, end: u32) {
    && |data| < HALF
    && end == W(base + |data|)
    && W(t.sndUna - base) <= W(t.sndNxt - base) <= |data|
  }

  function Chunk(t: Tcb, data: seq<u8>, base: u32, count: nat): (r: seq<u8>)
    requires W(t.sndNxt - base) + count <= |data|
  {
    var off := W(t.sndNxt - base);
    data[off..off + count]
  }

  function SendRequest(t: Tcb, data: seq<u8>, base: u32, end: u32, count: nat): Request
    requires W(t.sndNxt - base) + count <= |data|
  {
    Request(if W(t.sndNxt + count) == end then ACK_PSH else ACK, t.sndNxt, Chunk(t, data, base, count))
  }

  /** send() after the await on its event: `None` when the retransmission limit is hit. */
  function OnWake(t: Tcb, notified: bool): Option<Tcb> {
    if notified then Some(t.(retries := 0))
    else
      var retries := if t.sndWnd != 0 then t.retries + 1 else t.retries;
      if t.sndWnd != 0 && retries > MAX_RETX then None
      else Some(t.(retries := retries, sndNxt := t.sndUna))
  }

  /** A timeout goes back to the oldest unacknowledged byte and counts, unless the window is
      closed; the sixth in a row that counts gives up. */
  lemma TimeoutIs(t: Tcb)
    ensures OnWake(t, false) == None <==> t.sndWnd != 0 && t.retries >= 5
    ensures OnWake(t, false).Some? ==>
      OnWake(t, false).value == t.(sndNxt := t.sndUna, retries := if t.sndWnd == 0 then t.retries else t.retries + 1)
    ensures OnWake(t, true) == Some(t.(retries := 0))
  {}

  /** close() up to its loop: the new fields and, if a FIN is to be sent, its sequence. */
  function OnClose(t: Tcb): (Tcb, Option<u32>) {
    match t.state
    case Established => (t.(state := FinWait1, sndNxt := W(t.sndNxt + 1), retries := 0), Some(t.sndNxt))
    case CloseWait => (t.(state := LastAck, sndNxt := W(t.sndNxt + 1), retries := 0), Some(t.sndNxt))
    case Listen => (t.(state := Closed), None)
    case SynSent => (t.(state := Closed), None)
    case _ => (t, None)
  }

  predicate Sendable(st: State) { st == Established || st == CloseWait }

  // ----- properties of one sender

  lemma OffsetOf(base: u32, n: int)
    requires 0 <= n < M32
    ensures W(W(base + n) - base) == n
  {}

  /** The wrapped distance of two positions is the difference of their offsets, and serial
      order is the order of the offsets, while both lie in the first half of the space. */
  lemma OffsetDistance(base: u32, x: u32, y: u32)
    requires W(y - base) <= W(x - base) < HALF
    ensures W(x - y) == W(x - base) - W(y - base)
    ensures SeqLt(y, x) <==> W(y - base) < W(x - base)
  {}

  lemma SendDistances(t: Tcb, data: seq<u8>, base: u32, end: u32)
    requires SendInv(t, data, base, end)
    ensures InFlight(t) == W(t.sndNxt - base) - W(t.sndUna - base)
    ensures W(end - t.sndNxt) == |data| - W(t.sndNxt - base)
    ensures SeqLt(t.sndNxt, end) <==> W(t.sndNxt - base) < |data|
    ensures SeqLt(t.sndUna, end) <==> W(t.sndUna - base) < |data|
  {
    hide W;
    OffsetOf(base, |data|);
    OffsetDistance(base, t.sndNxt, t.sndUna);
    OffsetDistance(base, end, t.sndNxt);
    OffsetDistance(base, end, t.sndUna);
  }

  /** A chunk fits the peer's window (one byte when it is closed), the mss and the data. */
  lemma FillFits(t: Tcb, data: seq<u8>, base: u32, end: u32)
    requires TcbOk(t) && SendInv(t, data, base, end) && FillStep(t, end).Emit?
    ensures var n := FillStep(t, end).count;
            && 1 <= n <= t.sndMss
            && InFlight(t) + n <= (if t.sndWnd == 0 then 1 else t.sndWnd)
            && W(t.sndNxt - base) + n <= |data|
            && SendInv(t.(sndNxt := W(t.sndNxt + n)), data, base, end)
  {
    hide W;
    SendDistances(t, data, base, end);
    var c := FillStep(t, end).count;
    assert W(W(t.sndNxt + c) - base) == W(t.sndNxt - base) + c by {
      Offset(base, t.sndNxt);
      Unwrap(base, W(t.sndNxt - base), c);
    }
  }

  /** A wrapped position is its base plus its wrapped offset. */
  lemma Offset(base: u32, x: u32)
    ensures x == W(base + W(x - base))
  {}

  lemma Unwrap(base: u32, off: int, n: int)
    requires 0 <= off && 0 <= n && off + n < M32
    ensures W(W(base + off) + n) == W(base + off + n)
    ensures W(W(W(base + off) + n) - base) == off + n
  {}

  /** Whatever segment arrives, an acknowledgment moves `snd_una` forward and never past
      `snd_nxt`, and so keeps the sender's invariant - except the one number exactly 2^31
      beyond `snd_nxt` when nothing is in flight, which serial arithmetic accepts. */
  lemma AckKeepsSendInv(t: Tcb, data: seq<u8>, base: u32, end: u32, ackNo: u32)
    requires SendInv(t, data, base, end)
    requires AckInRange(t, ackNo)
    ensures SendInv(t.(sndUna := ackNo), data, base, end)
            <==> !(t.sndUna == t.sndNxt && ackNo == W(t.sndNxt + HALF))
    ensures SendInv(t.(sndUna := ackNo), data, base, end) ==> W(t.sndUna - base) <= W(ackNo - base)
  {
    var u, n, o := W(t.sndUna - base), W(t.sndNxt - base), W(ackNo - base);
    Offset(base, t.sndUna);
    Offset(base, t.sndNxt);
    Offset(base, ackNo);
    SerialOrder(base, o, n);
    SerialOrder(base, u, o);
    SerialOrder(base, u, n);
    if t.sndUna == t.sndNxt {
      Unwrap(base, n, HALF);
    }
  }

  /** The source's contract for entering send(): with anything unacknowledged, a timeout
      rewinds `snd_nxt` before `base` and the next chunk would start outside the data. */
  lemma RewindInsideDataIff(t: Tcb, data: seq<u8>)
    requires 0 < |data| < HALF
    requires InFlight(t) < HALF
    ensures var base := t.sndNxt;
            W(t.sndUna - base) <= |data| <==> t.sndUna == t.sndNxt
  {}

  /** A passive open is accepted with any acknowledgment from the initial sequence number to
      one past it; only the latter, which acknowledges our SYN, leaves nothing unacknowledged
      and so lets the first send() begin. */
  lemma AcceptReadyIff(t: Tcb, s: Segment)
    requires TcbOk(t) && t.state == SynReceived && t.sndNxt == W(t.sndUna + 1)
    requires s.flags.ack && !s.flags.rst && !s.flags.syn && AckInRange(t, s.ackNo)
    ensures s.ackNo == t.sndUna || s.ackNo == t.sndNxt
    ensures var t' := OnSynchronized(t, s).t;
            && t'.state != SynReceived && t'.sndNxt == t.sndNxt && t'.sndUna == s.ackNo
            && (t'.sndUna == t'.sndNxt <==> s.ackNo == W(t.sndUna + 1))
  {
    hide W, SeqLe, SeqLt, Fresh;
    AckOfSyn(t.sndUna, s.ackNo);
  }

  lemma AckOfSyn(una: u32, ackNo: u32)
    requires SeqLe(ackNo, W(una + 1)) && SeqLe(una, ackNo)
    ensures ackNo == una || ackNo == W(una + 1)
  {}

  /** send() returns true only when the last byte is acknowledged. */
  lemma DoneMeansAllAcked(t: Tcb, data: seq<u8>, base: u32, end: u32)
    requires SendInv(t, data, base, end)
    ensures !SeqLt(t.sndUna, end) <==> t.sndUna == end
    ensures !SeqLt(t.sndUna, end) ==> t.sndNxt == end
  {
    hide W, SeqLt;
    SendDistances(t, data, base, end);
    OffsetOf(base, |data|);
    Offset(base, t.sndUna);
    Offset(base, t.sndNxt);
  }
}
