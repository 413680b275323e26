/** Two endpoints and a network that loses, duplicates, delays and reorders: a step system
    over the functions of module `Tcp`, with the coroutines' suspension points as steps.

    Every wrapped field is shadowed by an absolute position (`una`, `nxt`, `rcv`): 0 is the
    SYN, byte k of the stream is k + 1. The network is the set of all packets ever sent:
    a packet may be delivered at any time, any number of times, or never. */
module TcpRun {
  import opened Words
  import opened Tcp

  datatype Packet = Packet(s: Segment, aseq: int, aack: int)

  /** A call of send_segment made but not necessarily run yet. */
  datatype Call = Call(r: Request, aseq: int)

  /** Where the task that opens, sends and closes is suspended. */
  datatype Tx =
    | Idle
    | SynSending(tries: nat)
    | SynWaiting(tries: nat)
    | Sending(data: seq<u8>, base: u32, end: u32, count: nat)
    | SendWaiting(data: seq<u8>, base: u32, end: u32)
    | FinSending(finSeq: u32)
    | FinWaiting(finSeq: u32)
    | Lingering

  /** What outgoing segments are made of: whether the initial sequence number is chosen and
      the peer's is known, all data given to send(), the position of our FIN (-1: none). */
  datatype Origin = Origin(active: bool, synced: bool, iss: u32, stream: seq<u8>, fin: int)

  /** An endpoint: the connection record, the absolute positions, all data returned by
      recv() (`got`), whether the last send() failed, how much of the stream was reported as sent
      (`acked`), whether recv() reported the end, and whether a chunk was taken from outside
      the caller's data (`fault`). */
  datatype End = End(
    t: Tcb, o: Origin, una: int, nxt: int, rcv: int, got: seq<u8>,
    gaveUp: bool, acked: nat, eof: bool, fault: bool, tx: Tx, calls: set<Call>)

  const FRESH: End :=
    End(Blank(Closed), Origin(false, false, 0, [], -1), 0, 1, 0, [], false, 0, false, false, Idle, {})

  datatype Action =
    | Listen
    | Connect(iss: u32)
    | Transmit(c: Call)
    | Resume(ok: bool)
    | Wake(notified: bool)
    | Deliver(p: Packet, iss: u32)
    | Send(data: seq<u8>)
    | Recv(n: nat)
    | Close
    | AbortCall
    | Reset
    | Expire

  // ----- the coroutines, from one suspension point to the next

  function WithCall(e: End, flags: Flags, seqNo: u32, aseq: int): End {
    e.(calls := e.calls + {Call(Request(flags, seqNo, []), aseq)})
  }

  function FillTop(e: End, data: seq<u8>, base: u32, end: u32): End {
    match FillStep(e.t, end)
    case Wait => e.(tx := SendWaiting(data, base, end))
    case Emit(n) =>
      if W(e.t.sndNxt - base) + n <= |data| then
        e.(calls := e.calls + {Call(SendRequest(e.t, data, base, end, n), e.nxt)},
           tx := Sending(data, base, end, n))
      else e.(fault := true)
  }

  function SendTop(e: End, data: seq<u8>, base: u32, end: u32): End {
    if !SeqLt(e.t.sndUna, end) then e.(tx := Idle, acked := |e.o.stream|)
    else if !Sendable(e.t.state) then e.(tx := Idle, gaveUp := true)
    else FillTop(e, data, base, end)
  }

  /** The endpoint that a send() takes its first chunk from. */
  function Started(e: End, data: seq<u8>): End {
    e.(o := e.o.(stream := e.o.stream + data), t := e.t.(retries := 0), gaveUp := false)
  }

  function StartSend(e: End, data: seq<u8>): End {
    if !Sendable(e.t.state) || data == [] then e
    else
      var base := e.t.sndNxt;
      SendTop(Started(e, data), data, base, W(base + |data|))
  }

  function RequestAbort(e: End): End {
    if e.t.state == Closed || e.t.state == State.Listen || e.t.state == SynSent then e
    else WithCall(e, RST_ACK, e.t.sndNxt, e.nxt)
  }

  function CloseTail(e: End): End {
    if SeqLt(e.t.sndUna, e.t.sndNxt) && e.t.state != Closed then RequestAbort(e).(tx := Idle)
    else if e.t.state == FinWait2 then e.(tx := Lingering)
    else e.(tx := Idle)
  }

  function FinTop(e: End, finSeq: u32): End {
    if SeqLt(e.t.sndUna, e.t.sndNxt) && e.t.state != Closed then
      WithCall(e, FIN_ACK, finSeq, e.o.fin).(tx := FinSending(finSeq))
    else CloseTail(e)
  }

  /** The FIN is placed right after the stream. */
  function Finishing(e: End, t: Tcb): End { e.(t := t, o := e.o.(fin := e.nxt), nxt := e.nxt + 1) }

  function StartClose(e: End): End {
    match OnClose(e.t)
    case (t, None) => e.(t := t)
    case (t, Some(finSeq)) => FinTop(Finishing(e, t), finSeq)
  }

  /** A chunk was handed over: the fill loop goes on behind it. */
  function Filled(e: End, n: nat): End { e.(t := e.t.(sndNxt := W(e.t.sndNxt + n)), nxt := e.nxt + n) }

  function OnResume(e: End, ok: bool): End {
    match e.tx
    case SynSending(k) => if ok then e.(tx := SynWaiting(k)) else e.(t := e.t.(state := Closed), tx := Idle)
    case Sending(data, base, end, n) =>
      if ok then FillTop(Filled(e, n), data, base, end)
      else e.(tx := Idle, gaveUp := true)
    case FinSending(f) => if ok then e.(tx := FinWaiting(f)) else CloseTail(e)
    case _ => e
  }

  /** After the wait of send(): a timeout goes back to the oldest unacknowledged byte. */
  function Woken(e: End, t: Tcb, notified: bool): End { e.(t := t, nxt := if notified then e.nxt else e.una) }

  function OnEvent(e: End, notified: bool): End {
    match e.tx
    case SynWaiting(k) =>
      if e.t.state == Established || e.t.state == Closed then e.(tx := Idle)
      else if k < MAX_RETX then WithCall(e, SYN, e.o.iss, 0).(tx := SynSending(k + 1))
      else e.(t := e.t.(state := Closed), tx := Idle)
    case SendWaiting(data, base, end) =>
      (match OnWake(e.t, notified)
       case None => e.(tx := Idle, gaveUp := true)
       case Some(t) => SendTop(Woken(e, t, notified), data, base, end))
    case FinWaiting(f) =>
      if notified then FinTop(e, f)
      else
        var e' := e.(t := e.t.(retries := e.t.retries + 1));
        if e'.t.retries > MAX_RETX then CloseTail(e') else FinTop(e', f)
    case Lingering => if e.t.state == FinWait2 then RequestAbort(e).(tx := Idle) else e.(tx := Idle)
    case _ => e
  }

  function OnRecv(e: End, n: nat): End {
    if e.t.rx != [] then
      var count := Min(n, |e.t.rx|);
      var e' := e.(got := e.got + e.t.rx[..count], t := e.t.(rx := e.t.rx[count..], rxWndClosed := false));
      if e.t.rxWndClosed then WithCall(e', ACK, e.t.sndNxt, e.nxt) else e'
    else if e.t.rxFin && n > 0 then e.(eof := true)
    else e
  }

  /** Absolute positions follow the wrapped fields: each moves by the wrapped distance. */
  function Track(e: End, t: Tcb): End {
    if e.t.state == State.Listen && t.state == SynReceived then
      e.(t := t, o := e.o.(active := true, synced := true, iss := t.sndUna), una := 0, nxt := 1, rcv := 1)
    else if e.t.state == SynSent && t.state == Established then
      e.(t := t, o := e.o.(synced := true), una := e.una + W(t.sndUna - e.t.sndUna), rcv := 1)
    else
      e.(t := t, una := e.una + W(t.sndUna - e.t.sndUna), rcv := e.rcv + W(t.rcvNxt - e.t.rcvNxt))
  }

  function OnDeliver(e: End, s: Segment, iss: u32): (End, set<Packet>)
    requires TcbOk(e.t)
  {
    var o := OnSegment(e.t, s, iss);
    var e' := Track(e, o.t);
    (if o.reply == [] then e'
     else e'.(calls := e'.calls + {Call(o.reply[0], if o.reply[0].flags.syn then 0 else e'.nxt)}),
     if o.rst == [] then {} else {Packet(o.rst[0], 0, 0)})
  }

  function OnTransmit(e: End, c: Call): (End, set<Packet>)
    requires TcbOk(e.t)
  {
    var (t, s) := SendSegment(e.t, c.r.flags, c.r.seqNo, c.r.data);
    (e.(t := t), {Packet(s, c.aseq, e.rcv)})
  }

  /** The new endpoint and the packets put on the network. */
  function Next(e: End, a: Action): (End, set<Packet>)
    requires TcbOk(e.t)
  {
    match a
    case Listen => (e.(t := Blank(State.Listen)), {})
    case Connect(iss) =>
      (WithCall(e.(t := Blank(SynSent).(sndUna := iss, sndNxt := W(iss + 1)), o := e.o.(active := true, iss := iss)),
                SYN, iss, 0).(tx := SynSending(0)), {})
    case Transmit(c) => OnTransmit(e, c)
    case Resume(ok) => (OnResume(e, ok), {})
    case Wake(notified) => (OnEvent(e, notified), {})
    case Deliver(p, iss) => OnDeliver(e, p.s, iss)
    case Send(data) => (StartSend(e, data), {})
    case Recv(n) => (OnRecv(e, n), {})
    case Close => (StartClose(e), {})
    case AbortCall => (RequestAbort(e), {})
    case Reset => (e.(t := e.t.(state := Closed)), {})
    case Expire => (e.(t := e.t.(state := Closed)), {})
  }

  predicate Near(x: int, y: int) { -HALF < x - y < HALF }

  /** A segment is delivered only while it is within 2^31 of what it refers to. */
  predicate InWindow(e: End, p: Packet) {
    p.s.flags.rst ||
    ((e.o.synced ==> Near(p.aseq, e.rcv)) && (p.s.flags.ack ==> Near(p.aack, e.una) && Near(p.aack, e.nxt)))
  }

  /** Everything given to send() so far is acknowledged. */
  predicate AllSent(e: End) { e.una == e.nxt == 1 + |e.o.stream| }

  /** Callers: one task per direction, one incarnation, and after a send that failed another
      one only once everything was acknowledged after all. */
  predicate Enabled(e: End, incoming: set<Packet>, a: Action) {
    match a
    case Listen => e.t.state == Closed && !e.o.active && e.tx.Idle?
    case Connect(_) => e.t.state == Closed && !e.o.active && e.tx.Idle?
    case Transmit(c) => c in e.calls
    case Resume(_) => e.tx.SynSending? || e.tx.Sending? || e.tx.FinSending?
    case Wake(_) => e.tx.SynWaiting? || e.tx.SendWaiting? || e.tx.FinWaiting? || e.tx.Lingering?
    case Deliver(p, _) => p in incoming && InWindow(e, p)
    case Send(data) => e.tx.Idle? && (e.gaveUp ==> AllSent(e)) && |data| < HALF
    case Recv(_) => true
    case Close => e.tx.Idle? || e.t.state == SynSent
    case AbortCall => true
    case Reset => true
    case Expire => e.t.state == TimeWait
  }

  // ----- invariants

  /** What the arguments of a send_segment call carry, in absolute positions. */
  ghost predicate Shape(o: Origin, flags: Flags, seqNo: u32, data: seq<u8>, aseq: int) {
    flags.rst ||
    (&& o.active
     && seqNo == W(o.iss + aseq)
     && (flags.syn ==> aseq == 0 && data == [] && !flags.fin)
     && (flags.fin ==> 1 <= aseq == o.fin && data == [])
     && (data != [] ==>
           1 <= aseq && aseq - 1 + |data| <= |o.stream| && data == o.stream[aseq - 1..aseq - 1 + |data|])
     && (flags.ack ==> o.synced))
  }

  ghost predicate CallsOk(o: Origin, calls: set<Call>) {
    forall c :: c in calls ==> Shape(o, c.r.flags, c.r.seqNo, c.r.data, c.aseq)
  }

  predicate Handshaking(st: State) { st == Closed || st == State.Listen || st == SynSent || st == SynReceived }

  predicate Finished(st: State) {
    st == FinWait1 || st == FinWait2 || st == Closing || st == LastAck || st == TimeWait
  }

  predicate PeerFinished(st: State) {
    st == CloseWait || st == Closing || st == LastAck || st == TimeWait
  }

  /** The send() in progress: base <= una <= nxt <= end, with `end` the end of the stream. */
  ghost predicate Running(e: End, data: seq<u8>, base: u32, end: u32) {
    var b := 1 + |e.o.stream| - |data|;
    && e.o.fin == -1 && !e.gaveUp && e.o.synced
    && 0 < |data| < HALF && 1 <= b <= e.una
    && data == e.o.stream[b - 1..]
    && base == W(e.o.iss + b) && end == W(e.o.iss + 1 + |e.o.stream|)
  }

  ghost predicate TxOk(e: End) {
    match e.tx
    case Sending(data, base, end, n) => Running(e, data, base, end) && e.nxt + n <= 1 + |e.o.stream|
    case SendWaiting(data, base, end) => Running(e, data, base, end)
    case FinSending(f) => e.o.fin >= 0 && f == W(e.o.iss + e.o.fin)
    case FinWaiting(f) => e.o.fin >= 0 && f == W(e.o.iss + e.o.fin)
    case Lingering => e.o.fin >= 0
    case Idle => e.o.fin == -1 && !e.gaveUp ==> e.nxt == 1 + |e.o.stream| && (Sendable(e.t.state) ==> e.una == e.nxt)
    case _ => e.o.fin == -1 && !e.gaveUp && e.o.stream == [] && e.nxt == 1 && e.o.active
              && (Sendable(e.t.state) ==> e.una == e.nxt)
  }

  /** Invariant of one endpoint. */
  ghost predicate Local(e: End) { TcbOk(e.t) && Core(e) && TxOk(e) && CallsOk(e.o, e.calls) }

  ghost predicate Core(e: End) {
    && TcbOk(e.t) && !e.fault
    && (!e.o.active ==>
          && !e.o.synced && (e.t.state == Closed || e.t.state == State.Listen) && e.una == 0 && e.nxt == 1
          && e.o.stream == [] && e.o.fin == -1 && !e.gaveUp && e.calls == {} && e.tx.Idle?)
    && (e.o.active ==> e.t.sndUna == W(e.o.iss + e.una) && e.t.sndNxt == W(e.o.iss + e.nxt) && e.t.state != State.Listen)
    && (e.o.synced ==> e.o.active && e.rcv >= 1 && e.t.state != SynSent)
    && (!e.o.synced ==>
          && (e.t.state == Closed || e.t.state == State.Listen || e.t.state == SynSent)
          && e.rcv == 0 && e.t.rx == [] && e.got == [] && !e.t.rxFin && e.una == 0 && e.nxt == 1)
    && 0 <= e.una <= e.nxt
    && (!Handshaking(e.t.state) ==> e.una >= 1)
    && (e.t.state == SynReceived ==> e.una == 0 && e.nxt == 1 && e.o.stream == [])
    && (e.o.fin == -1 ==> !Finished(e.t.state) && e.nxt <= 1 + |e.o.stream|)
    && (e.o.fin != -1 ==>
          && 1 <= e.o.fin <= 1 + |e.o.stream| && e.nxt == e.o.fin + 1 && !Sendable(e.t.state)
          && e.o.synced && !e.tx.Sending? && !e.tx.SendWaiting?
          && e.acked < e.o.fin && (!e.gaveUp ==> e.o.fin == 1 + |e.o.stream|))
    && (e.t.state == FinWait2 || e.t.state == TimeWait ==> e.una == e.nxt)
    && (e.t.state != Closed ==> (e.t.rxFin <==> PeerFinished(e.t.state)))
    && e.acked <= |e.o.stream| && (e.acked > 0 ==> e.una >= 1 + e.acked)
    && (e.eof ==> e.t.rxFin && e.t.rx == [])
  }

  /** Stream bytes the peer has consumed so far (its FIN takes one position). */
  function Taken(y: End): int { y.rcv - 1 - (if y.t.rxFin then 1 else 0) }

  /** Everything `y` received is a prefix of what `x` was given. */
  ghost predicate Received(x: End, y: End) {
    y.o.synced ==>
      && x.o.active && y.t.rcvNxt == W(x.o.iss + y.rcv)
      && 0 <= Taken(y) <= |x.o.stream|
      && y.got + y.t.rx == x.o.stream[..Taken(y)]
      && (y.t.rxFin ==> x.o.fin == y.rcv - 1)
  }

  ghost predicate PacketOk(x: End, y: End, p: Packet) {
    && Shape(x.o, p.s.flags, p.s.seqNo, p.s.data, p.aseq)
    && (p.s.flags.rst || !p.s.flags.ack || (y.o.active && p.s.ackNo == W(y.o.iss + p.aack) && 1 <= p.aack <= x.rcv))
  }

  /** Invariant of the direction from `x` to `y`, whose packets are in `net`. */
  ghost predicate Link(x: End, y: End, net: set<Packet>) {
    && x.una <= y.rcv
    && Received(x, y)
    && forall p :: p in net ==> PacketOk(x, y, p)
  }

  /** What every step of an endpoint respects. */
  ghost predicate Grows(o: Origin, o': Origin) {
    && (o.active ==> o'.active && o'.iss == o.iss)
    && (o.synced ==> o'.synced)
    && o.stream <= o'.stream
    && (o.fin != -1 ==> o'.fin == o.fin)
  }

  // ----- steps keep the invariant

  lemma WrapAdd(x: int, n: int)
    ensures W(W(x) + n) == W(x + n)
  {}

  lemma ShapeGrows(o: Origin, o': Origin, flags: Flags, seqNo: u32, data: seq<u8>, aseq: int)
    requires Grows(o, o') && Shape(o, flags, seqNo, data, aseq)
    ensures Shape(o', flags, seqNo, data, aseq)
  {}

  lemma CallsGrow(o: Origin, o': Origin, calls: set<Call>)
    requires Grows(o, o') && CallsOk(o, calls)
    ensures CallsOk(o', calls)
  {
    forall c | c in calls
      ensures Shape(o', c.r.flags, c.r.seqNo, c.r.data, c.aseq)
    {
      ShapeGrows(o, o', c.r.flags, c.r.seqNo, c.r.data, c.aseq);
    }
  }

  /** One more call, with a well-formed segment. */
  lemma CallAdded(o: Origin, calls: set<Call>, r: Request, aseq: int)
    requires CallsOk(o, calls) && Shape(o, r.flags, r.seqNo, r.data, aseq)
    ensures CallsOk(o, calls + {Call(r, aseq)})
  {}

  /** The three kinds of call without data. */
  lemma SynAdded(o: Origin, calls: set<Call>)
    requires CallsOk(o, calls) && o.active
    ensures CallsOk(o, calls + {Call(Request(SYN, o.iss, []), 0)})
  {
    CallAdded(o, calls, Request(SYN, o.iss, []), 0);
  }

  lemma FinAdded(o: Origin, calls: set<Call>)
    requires CallsOk(o, calls) && o.active && o.synced && 1 <= o.fin
    ensures CallsOk(o, calls + {Call(Request(FIN_ACK, W(o.iss + o.fin), []), o.fin)})
  {
    CallAdded(o, calls, Request(FIN_ACK, W(o.iss + o.fin), []), o.fin);
  }

  lemma PlainAdded(o: Origin, calls: set<Call>, flags: Flags, nxt: int)
    requires CallsOk(o, calls) && o.active && o.synced && !flags.fin && !flags.syn
    ensures CallsOk(o, calls + {Call(Request(flags, W(o.iss + nxt), []), nxt)})
  {
    CallAdded(o, calls, Request(flags, W(o.iss + nxt), []), nxt);
  }

  /** The absolute form of the sender's invariant implies the wrapped one. */
  lemma RunningIsSendInv(e: End, data: seq<u8>, base: u32, end: u32)
    requires Running(e, data, base, end)
    requires e.o.active && e.t.sndUna == W(e.o.iss + e.una) && e.t.sndNxt == W(e.o.iss + e.nxt)
    requires e.una <= e.nxt <= 1 + |e.o.stream|
    ensures var b := 1 + |e.o.stream| - |data|;
            && SendInv(e.t, data, base, end)
            && W(e.t.sndNxt - base) == e.nxt - b && W(e.t.sndUna - base) == e.una - b
            && (SeqLt(e.t.sndNxt, end) <==> e.nxt <= |e.o.stream|)
            && (SeqLt(e.t.sndUna, end) <==> e.una <= |e.o.stream|)
            && W(end - e.t.sndNxt) == 1 + |e.o.stream| - e.nxt
  {
    hide W, SeqLt;
    var b := 1 + |e.o.stream| - |data|;
    Distance(e.o.iss, e.nxt, b);
    Distance(e.o.iss, e.una, b);
    WrapAdd(e.o.iss + b, |data|);
    SendDistances(e.t, data, base, end);
  }

  lemma Distance(iss: u32, x: int, y: int)
    requires 0 <= x - y < M32
    ensures W(W(iss + x) - W(iss + y)) == x - y
  {}

  lemma SmallWrap(x: u32)
    ensures W(x) == x && W(x + 0) == x
  {}

  /** The fields the peer's view of `e` as a receiver depends on are untouched. */
  ghost predicate Quiet(e: End, e': End) {
    && Grows(e.o, e'.o) && e'.o.synced == e.o.synced && e'.una == e.una
    && e'.rcv == e.rcv && (e.o.synced ==> e'.t.rcvNxt == e.t.rcvNxt)
    && e'.got + e'.t.rx == e.got + e.t.rx && e'.t.rxFin == e.t.rxFin
  }

  /** A chunk taken by the fill loop is the stream at its absolute position. */
  lemma ChunkShape(e: End, data: seq<u8>, base: u32, end: u32)
    requires TcbOk(e.t) && Running(e, data, base, end)
    requires e.o.active && e.t.sndUna == W(e.o.iss + e.una) && e.t.sndNxt == W(e.o.iss + e.nxt)
    requires e.una <= e.nxt <= 1 + |e.o.stream|
    requires FillStep(e.t, end).Emit?
    ensures var n := FillStep(e.t, end).count;
            && W(e.t.sndNxt - base) + n <= |data| && e.nxt + n <= 1 + |e.o.stream|
            && var r := SendRequest(e.t, data, base, end, n);
               !r.flags.syn && !r.flags.fin && Shape(e.o, r.flags, r.seqNo, r.data, e.nxt)
  {
    hide W, FillStep, SendInv, SeqLt;
    RunningIsSendInv(e, data, base, end);
    FillFits(e.t, data, base, end);
    SuffixSlice(e.o.stream, |e.o.stream| - |data|, W(e.t.sndNxt - base), FillStep(e.t, end).count);
  }

  lemma SuffixSlice(s: seq<u8>, k: nat, off: nat, n: nat)
    requires k + off + n <= |s|
    ensures s[k..][off..off + n] == s[k + off..k + off + n]
  {}

  /** Suspending elsewhere, with more calls pending, is all the coroutines do to `Core`. */
  lemma CoreFrame(e: End, calls: set<Call>, tx: Tx)
    requires Core(e) && e.o.active && (e.o.fin != -1 ==> !tx.Sending? && !tx.SendWaiting?)
    ensures Core(e.(calls := calls, tx := tx))
  {
    hide W;
  }

  lemma RunningCore(e: End, data: seq<u8>, base: u32, end: u32)
    requires Core(e) && Running(e, data, base, end)
    ensures e.o.active && e.o.fin == -1 && e.una <= e.nxt <= 1 + |e.o.stream|
    ensures e.t.sndUna == W(e.o.iss + e.una) && e.t.sndNxt == W(e.o.iss + e.nxt)
  {
    hide W;
  }

  lemma FillTopKeeps(e: End, data: seq<u8>, base: u32, end: u32)
    requires Local(e.(tx := SendWaiting(data, base, end)))
    ensures Local(FillTop(e, data, base, end)) && Quiet(e, FillTop(e, data, base, end))
  {
    hide W, SeqLt, SeqLe, FillStep, SendRequest, Shape, CallsOk, Core;
    var e0 := e.(tx := SendWaiting(data, base, end));
    RunningCore(e0, data, base, end);
    if FillStep(e.t, end).Emit? {
      var n := FillStep(e.t, end).count;
      ChunkShape(e0, data, base, end);
      CallAdded(e.o, e.calls, SendRequest(e.t, data, base, end, n), e.nxt);
      CoreFrame(e0, e.calls + {Call(SendRequest(e.t, data, base, end, n), e.nxt)}, Sending(data, base, end, n));
    }
  }

  lemma SendTopKeeps(e: End, data: seq<u8>, base: u32, end: u32)
    requires Local(e.(tx := SendWaiting(data, base, end)))
    ensures Local(SendTop(e, data, base, end)) && Quiet(e, SendTop(e, data, base, end))
  {
    hide W, SeqLt, SeqLe, FillTop, Shape, CallsOk, SendInv;
    RunningIsSendInv(e, data, base, end);
    if SeqLt(e.t.sndUna, end) {
      FillTopKeeps(e, data, base, end);
    }
  }

  lemma StartReady(e: End, data: seq<u8>)
    requires Local(e) && e.tx.Idle? && (e.gaveUp ==> AllSent(e)) && 0 < |data| < HALF && Sendable(e.t.state)
    ensures Local(Started(e, data).(tx := SendWaiting(data, e.t.sndNxt, W(e.t.sndNxt + |data|))))
  {
    hide W, Shape, CallsOk;
    WrapAdd(e.o.iss + 1 + |e.o.stream|, |data|);
    CallsGrow(e.o, Started(e, data).o, e.calls);
  }

  lemma StartSendKeeps(e: End, data: seq<u8>)
    requires Local(e) && e.tx.Idle? && (e.gaveUp ==> AllSent(e)) && |data| < HALF
    ensures Local(StartSend(e, data)) && Quiet(e, StartSend(e, data))
  {
    hide W, Local, SendTop;
    if Sendable(e.t.state) && data != [] {
      StartReady(e, data);
      SendTopKeeps(Started(e, data), data, e.t.sndNxt, W(e.t.sndNxt + |data|));
    }
  }

  /** With nothing in flight a further send() puts every data at its own place in the stream
      exactly when nothing given to an earlier one is left behind. */
  lemma SendAgainIff(e: End)
    requires Local(e) && e.tx.Idle? && Sendable(e.t.state) && e.una == e.nxt
    ensures (forall data: seq<u8> :: 0 < |data| < HALF ==> CallsOk(StartSend(e, data).o, StartSend(e, data).calls))
            <==> AllSent(e)
  {
    hide W, SeqLt, StartSend, Shape, CallsOk;
    if AllSent(e) {
      forall data: seq<u8> | 0 < |data| < HALF
        ensures CallsOk(StartSend(e, data).o, StartSend(e, data).calls)
      {
        StartSendKeeps(e, data);
      }
    } else {
      var b: u8 := if e.o.stream[e.nxt - 1] == 0 then 1 else 0;
      var data: seq<u8> := [b];
      Misplaced(e, data);
    }
  }

  lemma Misplaced(e: End, data: seq<u8>)
    requires TcbOk(e.t) && Sendable(e.t.state) && e.una == e.nxt && 1 <= e.nxt <= |e.o.stream| && e.o.fin == -1
    requires e.t.sndUna == W(e.o.iss + e.una) && e.t.sndNxt == W(e.o.iss + e.nxt)
    requires |data| == 1 && data[0] != e.o.stream[e.nxt - 1]
    ensures !CallsOk(StartSend(e, data).o, StartSend(e, data).calls)
  {
    var e' := StartSend(e, data);
    var r := Request(ACK_PSH, e.t.sndNxt, data);
    assert data[0..1] == data;
    assert Call(r, e.nxt) in e'.calls;
    assert e'.o.stream[e.nxt - 1..e.nxt][0] != data[0];
  }

  lemma AbortKeeps(e: End)
    requires Core(e) && CallsOk(e.o, e.calls)
    ensures CallsOk(e.o, RequestAbort(e).calls)
    ensures RequestAbort(e) == e.(calls := RequestAbort(e).calls) && Core(RequestAbort(e))
  {
    hide W, CallsOk, Shape;
    if RequestAbort(e) != e {
      PlainAdded(e.o, e.calls, RST_ACK, e.nxt);
    }
  }

  lemma CloseTailKeeps(e: End)
    requires Local(e) && e.o.fin >= 0
    ensures Local(CloseTail(e)) && Quiet(e, CloseTail(e))
  {
    hide W, SeqLt, CallsOk, Shape, RequestAbort;
    AbortKeeps(e);
  }

  lemma FinTopKeeps(e: End, finSeq: u32)
    requires Local(e) && e.o.fin >= 0 && finSeq == W(e.o.iss + e.o.fin)
    ensures Local(FinTop(e, finSeq)) && Quiet(e, FinTop(e, finSeq))
  {
    hide W, SeqLt, CallsOk, Shape, CloseTail;
    CloseTailKeeps(e);
    if SeqLt(e.t.sndUna, e.t.sndNxt) && e.t.state != Closed {
      FinAdded(e.o, e.calls);
    }
  }

  lemma FinishingReady(e: End)
    requires Local(e) && (e.tx.Idle? || e.t.state == SynSent) && OnClose(e.t).1.Some?
    ensures var e', finSeq := Finishing(e, OnClose(e.t).0), OnClose(e.t).1.value;
            Local(e') && Grows(e.o, e'.o) && e'.o.fin >= 0 && finSeq == W(e'.o.iss + e'.o.fin)
  {
    hide W, CallsOk, Shape;
    WrapAdd(e.o.iss + e.nxt, 1);
    CallsGrow(e.o, Finishing(e, OnClose(e.t).0).o, e.calls);
  }

  lemma NotOpenKeeps(e: End)
    requires Local(e) && (e.tx.Idle? || e.t.state == SynSent) && OnClose(e.t).1.None?
    ensures Local(e.(t := OnClose(e.t).0)) && Quiet(e, e.(t := OnClose(e.t).0))
  {
    hide W, CallsOk;
  }

  lemma StartCloseKeeps(e: End)
    requires Local(e) && (e.tx.Idle? || e.t.state == SynSent)
    ensures Local(StartClose(e)) && Quiet(e, StartClose(e))
  {
    hide W, Local, FinTop;
    match OnClose(e.t)
    case (t, None) => NotOpenKeeps(e);
    case (t, Some(finSeq)) =>
      FinishingReady(e);
      FinTopKeeps(Finishing(e, t), finSeq);
  }

  lemma FilledReady(e: End)
    requires Local(e) && e.tx.Sending?
    ensures var Sending(data, base, end, n) := e.tx; Local(Filled(e, n).(tx := SendWaiting(data, base, end)))
  {
    hide W, CallsOk, Shape;
    WrapAdd(e.o.iss + e.nxt, e.tx.count);
  }

  /** A send() that fails leaves everything else as it was. */
  lemma GiveUpKeeps(e: End)
    requires Local(e) && (e.tx.Sending? || e.tx.SendWaiting?)
    ensures Local(e.(tx := Idle, gaveUp := true))
  {
    hide W, CallsOk;
  }

  lemma ResumeSendKeeps(e: End, ok: bool)
    requires Local(e) && e.tx.Sending?
    ensures Local(OnResume(e, ok)) && Quiet(e, OnResume(e, ok))
  {
    hide W, Local, FillTop;
    if ok {
      FilledReady(e);
      FillTopKeeps(Filled(e, e.tx.count), e.tx.data, e.tx.base, e.tx.end);
    } else {
      GiveUpKeeps(e);
    }
  }

  lemma ResumeSynKeeps(e: End, ok: bool)
    requires Local(e) && e.tx.SynSending?
    ensures Local(OnResume(e, ok)) && Quiet(e, OnResume(e, ok))
  {
    hide W, CallsOk;
  }

  lemma ResumeFinKeeps(e: End, ok: bool)
    requires Local(e) && e.tx.FinSending?
    ensures Local(OnResume(e, ok)) && Quiet(e, OnResume(e, ok))
  {
    hide W, CallsOk, CloseTail;
    CloseTailKeeps(e);
  }

  lemma ResumeKeeps(e: End, ok: bool)
    requires Local(e) && (e.tx.SynSending? || e.tx.Sending? || e.tx.FinSending?)
    ensures Local(OnResume(e, ok)) && Quiet(e, OnResume(e, ok))
  {
    hide W, Local, Quiet, OnResume;
    if e.tx.Sending? {
      ResumeSendKeeps(e, ok);
    } else if e.tx.FinSending? {
      ResumeFinKeeps(e, ok);
    } else {
      ResumeSynKeeps(e, ok);
    }
  }

  lemma WakeSynKeeps(e: End, notified: bool)
    requires Local(e) && e.tx.SynWaiting?
    ensures Local(OnEvent(e, notified)) && Quiet(e, OnEvent(e, notified))
  {
    hide W, CallsOk, Shape;
    SynAdded(e.o, e.calls);
  }

  lemma WokenReady(e: End, notified: bool)
    requires Local(e) && e.tx.SendWaiting? && OnWake(e.t, notified).Some?
    ensures Local(Woken(e, OnWake(e.t, notified).value, notified))
  {
    hide W, CallsOk, Shape;
  }

  lemma WakeSendKeeps(e: End, notified: bool)
    requires Local(e) && e.tx.SendWaiting?
    ensures Local(OnEvent(e, notified)) && Quiet(e, OnEvent(e, notified))
  {
    hide W, Local, SendTop;
    match OnWake(e.t, notified)
    case None => GiveUpKeeps(e);
    case Some(t) =>
      WokenReady(e, notified);
      WokenTx(e, t, notified);
      SendTopKeeps(Woken(e, t, notified), e.tx.data, e.tx.base, e.tx.end);
  }

  lemma RetriedKeeps(e: End)
    requires Local(e) && e.tx.FinWaiting?
    ensures Local(e.(t := e.t.(retries := e.t.retries + 1))) && e.o.fin >= 0 && e.tx.finSeq == W(e.o.iss + e.o.fin)
  {
    hide W, CallsOk;
  }

  lemma LingerKeeps(e: End)
    requires Local(e) && e.tx.Lingering?
    ensures Local(OnEvent(e, true)) && Quiet(e, OnEvent(e, true))
  {
    hide W, CallsOk, RequestAbort, Shape;
    AbortKeeps(e);
  }

  lemma WakeCloseKeeps(e: End, notified: bool)
    requires Local(e) && (e.tx.FinWaiting? || e.tx.Lingering?)
    ensures Local(OnEvent(e, notified)) && Quiet(e, OnEvent(e, notified))
  {
    hide W, Local, FinTop, CloseTail, RequestAbort;
    if e.tx.FinWaiting? {
      var e' := e.(t := e.t.(retries := e.t.retries + 1));
      RetriedKeeps(e);
      FinTopKeeps(e, e.tx.finSeq);
      FinTopKeeps(e', e.tx.finSeq);
      CloseTailKeeps(e');
    } else {
      LingerKeeps(e);
    }
  }

  lemma ConnectKeeps(e: End, iss: u32)
    requires Local(e) && !e.o.active && e.t.state == Closed
    ensures Local(Next(e, Connect(iss)).0) && Quiet(e, Next(e, Connect(iss)).0)
  {
    hide CallsOk, Shape, W;
    var o := e.o.(active := true, iss := iss);
    SmallWrap(iss);
    CallsGrow(e.o, o, e.calls);
    SynAdded(o, e.calls);
  }

  lemma RecvKeeps(e: End, n: nat)
    requires Local(e)
    ensures Local(OnRecv(e, n)) && Quiet(e, OnRecv(e, n))
  {
    hide W, CallsOk, Shape;
    if e.t.rx != [] {
      var count := Min(n, |e.t.rx|);
      assert e.got + e.t.rx[..count] + e.t.rx[count..] == e.got + e.t.rx;
      if e.t.rxWndClosed {
        PlainAdded(e.o, e.calls, ACK, e.nxt);
      }
    }
  }

  /** Building a segment changes no field but the closed-window mark; the packet carries
      what the call said, with the acknowledgment current now. */
  lemma TransmitKeeps(e: End, y: End, c: Call)
    requires Local(e) && c in e.calls && Received(y, e)
    ensures var (e', out) := OnTransmit(e, c);
            Local(e') && Quiet(e, e') && forall p :: p in out ==> PacketOk(e', y, p)
  {
    hide W, CallsOk;
    CallIn(e.o, e.calls, c);
  }

  lemma CallIn(o: Origin, calls: set<Call>, c: Call)
    requires CallsOk(o, calls) && c in calls
    ensures Shape(o, c.r.flags, c.r.seqNo, c.r.data, c.aseq)
  {}

  // ----- delivery

  /** An accepted acknowledgment, in absolute positions. */
  lemma AckTrack(y: End, ackNo: u32, aack: int)
    requires y.t.sndUna == W(y.o.iss + y.una) && y.t.sndNxt == W(y.o.iss + y.nxt) && 0 <= y.una <= y.nxt
    requires ackNo == W(y.o.iss + aack) && Near(aack, y.una) && Near(aack, y.nxt)
    ensures AckInRange(y.t, ackNo) <==> y.una <= aack <= y.nxt
    ensures AckInRange(y.t, ackNo) ==> W(ackNo - y.t.sndUna) == aack - y.una
    ensures AckInRange(y.t, ackNo) ==> (ackNo == y.t.sndNxt <==> aack == y.nxt)
    ensures SeqLt(y.t.sndUna, ackNo) <==> y.una < aack
    ensures SeqLe(ackNo, y.t.sndNxt) <==> aack <= y.nxt
  {
    hide W, SeqLt, SeqLe;
    SerialOrder(y.o.iss, aack, y.nxt);
    SerialOrder(y.o.iss, y.una, aack);
    if y.una <= aack {
      Distance(y.o.iss, aack, y.una);
    }
  }

  /** The fresh part of an in-window payload is the next piece of the peer's stream. */
  lemma FreshTrack(x: Origin, rcv: int, t: Tcb, s: Segment, aseq: int)
    requires 1 <= rcv <= 1 + |x.stream| && t.rcvNxt == W(x.iss + rcv)
    requires !s.flags.rst && Shape(x, s.flags, s.seqNo, s.data, aseq) && Near(aseq, rcv)
    ensures var body := Tcp.Fresh(t, s);
            rcv - 1 + |body| <= |x.stream| && body == x.stream[rcv - 1..rcv - 1 + |body|]
  {
    hide W, SeqLt, SeqLe;
    SerialOrder(x.iss, aseq, rcv);
    if aseq < rcv {
      Distance(x.iss, rcv, aseq);
      if rcv - aseq < |s.data| {
        SubSlice(x.stream, aseq - 1, |s.data|, rcv - aseq);
      }
    }
  }

  lemma SubSlice(s: seq<u8>, k: nat, len: nat, skip: nat)
    requires k + len <= |s| && skip <= len
    ensures s[k..k + len][skip..] == s[k + skip..k + len]
  {}

  function Piece(s: seq<u8>, k: int, n: nat): seq<u8>
    requires n > 0 ==> 0 <= k && k + n <= |s|
  {
    if n == 0 then [] else s[k..k + n]
  }

  /** Pushing what fits keeps "ring = next piece of the stream". */
  lemma DataTrack(x: Origin, rcv: int, t: Tcb, s: Segment, aseq: int) returns (n: nat)
    requires TcbOk(t) && t.rcvNxt == W(x.iss + rcv) && 1 <= rcv
    requires Receiving(t.state) ==> rcv <= 1 + |x.stream|
    requires !s.flags.rst && Shape(x, s.flags, s.seqNo, s.data, aseq) && Near(aseq, rcv)
    ensures n + |t.rx| <= RX_BUFFER_SIZE && (n > 0 ==> rcv - 1 + n <= |x.stream|)
    ensures !Receiving(t.state) ==> n == 0
    ensures OnData(t, s) == t.(rx := t.rx + Piece(x.stream, rcv - 1, n), rcvNxt := W(x.iss + rcv + n))
  {
    hide W, SeqLt, SeqLe, Shape, Tcp.Fresh;
    n := 0;
    assert t.rx + [] == t.rx;
    if Receiving(t.state) {
      FreshTrack(x, rcv, t, s, aseq);
      var body := Tcp.Fresh(t, s);
      n := Min(|body|, RxFree(t));
      SubPrefix(x.stream, rcv - 1, |body|, n);
      WrapAdd(x.iss + rcv, n);
    }
  }

  lemma SubPrefix(s: seq<u8>, k: nat, len: nat, n: nat)
    requires k + len <= |s| && n <= len
    ensures s[k..k + len][..n] == s[k..k + n]
  {}

  /** A FIN is consumed exactly at the end of the peer's stream. */
  lemma FinTrack(x: Origin, rcv: int, t: Tcb, s: Segment, aseq: int) returns (f: nat)
    requires t.rcvNxt == W(x.iss + rcv) && rcv >= 1
    requires !s.flags.rst && Shape(x, s.flags, s.seqNo, s.data, aseq)
    requires -M32 < aseq - rcv < M32
    ensures f <= 1 && (f == 1 ==> s.flags.fin && x.fin == rcv && !t.rxFin)
    ensures OnFin(t, s) == if f == 1 then t.(rcvNxt := W(x.iss + rcv + 1), rxFin := true, state := FinState(t.state)) else t
  {
    f := 0;
    if s.flags.fin && !t.rxFin {
      SerialOrder(x.iss, aseq, rcv);
      assert s.seqNo + |s.data| == s.seqNo;
      if aseq == rcv {
        f := 1;
        WrapAdd(x.iss + rcv, 1);
      }
    }
  }

  /** What is known when `y` receives a packet of `x`. */
  ghost predicate Arriving(x: End, y: End, p: Packet) {
    Local(x) && Local(y) && y.una <= x.rcv && x.una <= y.rcv && Received(x, y) && PacketOk(x, y, p) && InWindow(y, p)
  }

  /** What delivery must re-establish. */
  ghost predicate Delivered(x: End, y: End, y': End) {
    && Local(y') && Grows(y.o, y'.o) && y.rcv <= y'.rcv && y'.una <= x.rcv && Received(x, y')
  }

  /** One accepted segment, in absolute positions: `una` after the ack, `n` bytes of data
      taken, `f` = 1 if the FIN was taken, `acked` whether the ack was in range. */
  datatype Accepted = Accepted(inRange: bool, una: int, n: nat, f: nat)

  function AckedState(y: End, r: Accepted): State {
    var st := if y.t.state == SynReceived then Established else y.t.state;
    if r.inRange && r.una == y.nxt then AllAcked(st) else st
  }

  /** The record after the segment. */
  function AcceptedTcb(x: End, y: End, s: Segment, r: Accepted): Tcb
    requires r.n > 0 ==> 1 <= y.rcv && y.rcv - 1 + r.n <= |x.o.stream|
  {
    var st := AckedState(y, r);
    Tcb(if r.f == 1 then FinState(st) else st,
        if r.inRange then s.ackNo else y.t.sndUna, y.t.sndNxt, if r.inRange then s.wnd else y.t.sndWnd,
        y.t.sndMss, y.t.retries, W(x.o.iss + y.rcv + r.n + r.f),
        y.t.rx + Piece(x.o.stream, y.rcv - 1, r.n), y.t.rxFin || r.f == 1, y.t.rxWndClosed)
  }

  ghost predicate AcceptOk(x: End, y: End, s: Segment, r: Accepted) {
    && Local(y) && y.o.synced && y.t.state != Closed && Received(x, y)
    && y.una <= r.una <= y.nxt && r.una <= x.rcv && r.una - y.una < HALF && (y.t.state == SynReceived ==> r.una == 1)
    && (if r.inRange then s.ackNo == W(y.o.iss + r.una) else r.una == y.una)
    && r.n + |y.t.rx| <= RX_BUFFER_SIZE && r.f <= 1 && (r.n > 0 ==> y.rcv - 1 + r.n <= |x.o.stream|)
    && (!Receiving(AckedState(y, r)) ==> r.n == 0)
    && (r.f == 1 ==> x.o.fin == y.rcv + r.n && !y.t.rxFin && x.o.fin <= 1 + |x.o.stream|)
  }

  function AcceptedEnd(x: End, y: End, s: Segment, r: Accepted): End
    requires r.n > 0 ==> 1 <= y.rcv && y.rcv - 1 + r.n <= |x.o.stream|
  {
    y.(t := AcceptedTcb(x, y, s, r), una := r.una, rcv := y.rcv + r.n + r.f)
  }

  /** The next piece of the stream extends what was received of it. */
  lemma PieceNext(stream: seq<u8>, k: nat, n: nat, got: seq<u8>, rx: seq<u8>)
    requires n > 0 ==> k + n <= |stream|
    ensures n == 0 ==> Piece(stream, k, n) == [] && got + (rx + Piece(stream, k, n)) == got + rx
    ensures n > 0 && got + rx == stream[..k] ==> got + (rx + Piece(stream, k, n)) == stream[..k + n]
  {
    var piece := Piece(stream, k, n);
    assert got + (rx + piece) == (got + rx) + piece;
    if n > 0 {
      assert stream[..k] + stream[k..k + n] == stream[..k + n];
    }
  }

  lemma AcceptReceived(x: End, y: End, s: Segment, r: Accepted)
    requires AcceptOk(x, y, s, r)
    ensures Received(x, AcceptedEnd(x, y, s, r))
  {
    hide W, CallsOk, TxOk, FinState, Piece;
    PieceNext(x.o.stream, y.rcv - 1, r.n, y.got, y.t.rx);
  }

  lemma AcceptCore(x: End, y: End, s: Segment, r: Accepted)
    requires AcceptOk(x, y, s, r)
    ensures Core(AcceptedEnd(x, y, s, r))
  {
    hide W, CallsOk, TxOk, Piece, Received;
    PieceSize(x.o.stream, y.rcv - 1, r.n);
  }

  lemma PieceSize(stream: seq<u8>, k: int, n: nat)
    requires n > 0 ==> 0 <= k && k + n <= |stream|
    ensures |Piece(stream, k, n)| == n
  {}

  lemma AcceptTx(x: End, y: End, s: Segment, r: Accepted)
    requires AcceptOk(x, y, s, r)
    ensures TxOk(AcceptedEnd(x, y, s, r))
  {
    hide W, CallsOk;
  }

  /** Every segment that reaches ack processing is one such step. */
  lemma AcceptSplit(x: End, y: End, p: Packet) returns (r: Accepted)
    requires Arriving(x, y, p) && y.o.synced && y.t.state != Closed && p.s.flags.ack && !p.s.flags.rst
    requires y.t.state == SynReceived ==> AckInRange(y.t, p.s.ackNo)
    ensures AcceptOk(x, y, p.s, r) && Tcp.Accept(y.t, p.s).t == AcceptedTcb(x, y, p.s, r)
  {
    hide W, SeqLt, SeqLe, CallsOk, TxOk, AckInRange, Shape;
    AckTrack(y, p.s.ackNo, p.aack);
    var inRange := AckInRange(y.t, p.s.ackNo);
    var una := if inRange then p.aack else y.una;
    var n, f := SplitPayload(x, y, p, AckedState(y, Accepted(inRange, una, 0, 0)));
    r := Accepted(inRange, una, n, f);
    AcceptUnfold(x, y, p, r);
  }

  /** Data and fin, whatever the state reached by the ack. */
  lemma SplitPayload(x: End, y: End, p: Packet, st: State) returns (n: nat, f: nat)
    requires Arriving(x, y, p) && y.o.synced && !p.s.flags.rst
    requires y.t.rxFin ==> !Receiving(st)
    ensures f <= 1 && n + |y.t.rx| <= RX_BUFFER_SIZE && (n > 0 ==> y.rcv - 1 + n <= |x.o.stream|)
    ensures !Receiving(st) ==> n == 0
    ensures f == 1 ==> x.o.fin == y.rcv + n && !y.t.rxFin
    ensures forall t: Tcb {:trigger OnData(t, p.s)} ::
      t.state == st && t.rx == y.t.rx && t.rcvNxt == y.t.rcvNxt && t.rxFin == y.t.rxFin && TcbOk(t) ==>
      OnFin(OnData(t, p.s), p.s) ==
        t.(rx := y.t.rx + Piece(x.o.stream, y.rcv - 1, n), rcvNxt := W(x.o.iss + y.rcv + n + f),
           rxFin := t.rxFin || f == 1, state := if f == 1 then FinState(st) else st)
  {
    hide W, SeqLt, SeqLe, CallsOk, TxOk, Shape, Tcp.OnData, Tcp.OnFin;
    var t1 := y.t.(state := st);
    n := DataTrack(x.o, y.rcv, t1, p.s, p.aseq);
    f := FinTrack(x.o, y.rcv + n, OnData(t1, p.s), p.s, p.aseq);
    forall t: Tcb | t.state == st && t.rx == y.t.rx && t.rcvNxt == y.t.rcvNxt && t.rxFin == y.t.rxFin && TcbOk(t)
      ensures OnFin(OnData(t, p.s), p.s) ==
        t.(rx := y.t.rx + Piece(x.o.stream, y.rcv - 1, n), rcvNxt := W(x.o.iss + y.rcv + n + f),
           rxFin := t.rxFin || f == 1, state := if f == 1 then FinState(st) else st)
    {
      PayloadFrame(t, t1, p.s);
    }
  }

  /** Data and fin processing neither read nor change the send side. */
  lemma PayloadFrame(t: Tcb, t': Tcb, s: Segment)
    requires TcbOk(t) && TcbOk(t')
    requires t.state == t'.state && t.rx == t'.rx && t.rcvNxt == t'.rcvNxt && t.rxFin == t'.rxFin
    ensures var a, b := OnFin(OnData(t, s), s), OnFin(OnData(t', s), s);
            a == t.(rx := b.rx, rcvNxt := b.rcvNxt, rxFin := b.rxFin, state := b.state)
  {
    hide W, SeqLt, SeqLe;
  }

  lemma AcceptUnfold(x: End, y: End, p: Packet, r: Accepted)
    requires TcbOk(y.t) && r.inRange == AckInRange(y.t, p.s.ackNo) && (r.inRange ==> (p.s.ackNo == y.t.sndNxt <==> r.una == y.nxt))
    requires r.n > 0 ==> 1 <= y.rcv && y.rcv - 1 + r.n <= |x.o.stream|
    requires forall t: Tcb {:trigger OnData(t, p.s)} ::
      t.state == AckedState(y, r) && t.rx == y.t.rx && t.rcvNxt == y.t.rcvNxt && t.rxFin == y.t.rxFin && TcbOk(t) ==>
      OnFin(OnData(t, p.s), p.s) ==
        t.(rx := y.t.rx + Piece(x.o.stream, y.rcv - 1, r.n), rcvNxt := W(x.o.iss + y.rcv + r.n + r.f),
           rxFin := t.rxFin || r.f == 1, state := if r.f == 1 then FinState(AckedState(y, r)) else AckedState(y, r))
    ensures Tcp.Accept(y.t, p.s).t == AcceptedTcb(x, y, p.s, r)
  {
    hide W, SeqLt, SeqLe, AckInRange, Tcp.OnData, Tcp.OnFin;
    var t0 := if y.t.state == SynReceived then y.t.(state := Established) else y.t;
    AckRangeState(y.t, t0, p.s.ackNo);
    var t1 := OnAck(t0, p.s);
    assert OnFin(OnData(t1, p.s), p.s).rcvNxt == W(x.o.iss + y.rcv + r.n + r.f);
  }

  lemma AckRangeState(t: Tcb, t': Tcb, ackNo: u32)
    requires t'.sndNxt == t.sndNxt && t'.sndUna == t.sndUna
    ensures AckInRange(t, ackNo) == AckInRange(t', ackNo)
  {}

  /** The absolute positions that follow the wrapped fields are the right ones. */
  lemma TrackIsAccepted(x: End, y: End, s: Segment, r: Accepted)
    requires AcceptOk(x, y, s, r)
    ensures Track(y, AcceptedTcb(x, y, s, r)) == AcceptedEnd(x, y, s, r)
  {
    hide W, CallsOk, TxOk;
    Distance(x.o.iss, y.rcv + r.n + r.f, y.rcv);
    Distance(y.o.iss, r.una, y.una);
  }

  // Delivery, state by state.

  lemma DeliverSyn(x: End, y: End, p: Packet, iss: u32)
    requires Arriving(x, y, p) && y.t.state == State.Listen && p.s.flags.syn && !p.s.flags.ack && !p.s.flags.rst
    ensures Delivered(x, y, OnDeliver(y, p.s, iss).0)
  {
    hide CallsOk, W, SeqLt, SeqLe, NegotiateMss, RstFor, Core, TxOk, Received;
    SynFields(x, y, p, iss);
    SmallWrap(iss);
    var o := y.o.(active := true, synced := true, iss := iss);
    SynGrows(y, o);
    CallsGrow(y.o, o, y.calls);
    CallAdded(o, y.calls, Request(SYN_ACK, iss, []), 0);
  }

  lemma SynGrows(y: End, o: Origin)
    requires Core(y) && y.t.state == State.Listen && o == y.o.(active := true, synced := true, iss := o.iss)
    ensures Grows(y.o, o) && !y.o.active
  {}

  /** The endpoint after a listener's SYN. */
  lemma SynFields(x: End, y: End, p: Packet, iss: u32)
    requires Arriving(x, y, p) && y.t.state == State.Listen && p.s.flags.syn && !p.s.flags.ack && !p.s.flags.rst
    ensures var y' := OnDeliver(y, p.s, iss).0;
            && Core(y') && TxOk(y') && Received(x, y') && TcbOk(y'.t) && y.rcv <= y'.rcv && y'.una <= x.rcv
  {
    hide CallsOk, W, SeqLt, SeqLe, NegotiateMss, RstFor;
    SmallWrap(iss);
    WrapAdd(x.o.iss + 0, 1);
    assert x.o.stream[..0] == [];
  }

  lemma DeliverListen(x: End, y: End, p: Packet, iss: u32)
    requires Arriving(x, y, p) && y.t.state == State.Listen
    ensures Delivered(x, y, OnDeliver(y, p.s, iss).0)
  {
    hide CallsOk, W, SeqLt, Track, Core, TxOk, Received, PacketOk;
    if p.s.flags.syn && !p.s.flags.ack && !p.s.flags.rst {
      DeliverSyn(x, y, p, iss);
    } else {
      TrackSame(y, OnListen(y.t, p.s, iss).t);
    }
  }

  lemma TrackSame(y: End, t: Tcb)
    requires t == y.t || (t == y.t.(state := Closed))
    ensures Track(y, t) == y.(t := t)
  {}

  lemma ClosedCore(y: End)
    requires Core(y) && TxOk(y)
    ensures Core(y.(t := y.t.(state := Closed))) && TxOk(y.(t := y.t.(state := Closed)))
  {
    hide W, Core;
    ClosedFields(y);
  }

  lemma ClosedFields(y: End)
    requires Core(y)
    ensures Core(y.(t := y.t.(state := Closed)))
  {
    hide W;
  }

  lemma ClosedKeeps(x: End, y: End)
    requires Local(y) && Received(x, y) && y.una <= x.rcv
    ensures Delivered(x, y, y.(t := y.t.(state := Closed)))
  {
    hide CallsOk, W, Core, TxOk;
    ClosedCore(y);
  }

  lemma DeliverSynAck(x: End, y: End, p: Packet)
    requires Arriving(x, y, p) && y.t.state == SynSent && OnSynSent(y.t, p.s).t.state == Established
    ensures Delivered(x, y, OnDeliver(y, p.s, 0).0)
  {
    hide CallsOk, W, SeqLt, SeqLe;
    AckTrack(y, p.s.ackNo, p.aack);
    WrapAdd(x.o.iss + 0, 1);
    Distance(y.o.iss, 1, 0);
    var o := y.o.(synced := true);
    CallsGrow(y.o, o, y.calls);
    PlainAdded(o, y.calls, ACK, 1);
    assert x.o.stream[..0] == [];
  }

  lemma DeliverSynSent(x: End, y: End, p: Packet)
    requires Arriving(x, y, p) && y.t.state == SynSent
    ensures Delivered(x, y, OnDeliver(y, p.s, 0).0)
  {
    hide CallsOk, W, SeqLt, SeqLe, Track;
    var o := OnSynSent(y.t, p.s);
    if o.t.state == Established {
      DeliverSynAck(x, y, p);
    } else {
      TrackSame(y, o.t);
      ClosedKeeps(x, y);
    }
  }

  /** The segments of a synchronized connection that reach ack processing. */
  predicate ReachesAck(t: Tcb, s: Segment) {
    && !s.flags.rst && s.flags.ack
    && !(t.state == SynReceived && s.flags.syn && W(s.seqNo + 1) == t.rcvNxt)
    && !(s.flags.syn && SeqLe(t.rcvNxt, s.seqNo))
    && (t.state == SynReceived ==> AckInRange(t, s.ackNo))
  }

  lemma DeliverSynchronized(x: End, y: End, p: Packet)
    requires Arriving(x, y, p) && y.o.synced && y.t.state != Closed
    ensures Delivered(x, y, OnDeliver(y, p.s, 0).0)
  {
    if ReachesAck(y.t, p.s) {
      DeliverAccepted(x, y, p);
    } else {
      DeliverRefused(x, y, p);
    }
  }

  lemma DeliverRefused(x: End, y: End, p: Packet)
    requires Arriving(x, y, p) && y.o.synced && y.t.state != Closed && !ReachesAck(y.t, p.s)
    ensures Delivered(x, y, OnDeliver(y, p.s, 0).0)
  {
    hide CallsOk, W, SeqLt, SeqLe, AckInRange, Track, Tcp.Accept, PacketOk, InWindow, Shape, Core, TxOk, Received;
    CoreActive(y);
    var o := OnSynchronized(y.t, p.s);
    TrackSame(y, o.t);
    ClosedKeeps(x, y);
    SynAckShape(y.o);
    CallAdded(y.o, y.calls, Request(SYN_ACK, W(y.o.iss + 0), []), 0);
    CallsReplaced(x, y, y.calls + {Call(Request(SYN_ACK, W(y.o.iss + 0), []), 0)});
  }

  lemma SynAckShape(o: Origin)
    requires o.active && o.synced
    ensures Shape(o, SYN_ACK, W(o.iss + 0), [], 0)
  {}

  lemma CallsReplaced(x: End, e: End, calls: set<Call>)
    requires Core(e) && TxOk(e) && CallsOk(e.o, calls) && e.o.active
    ensures Local(e.(calls := calls))
    ensures Received(x, e.(calls := calls)) == Received(x, e)
  {
    hide W, CallsOk;
  }

  lemma DeliverAccepted(x: End, y: End, p: Packet)
    requires Arriving(x, y, p) && y.o.synced && y.t.state != Closed && ReachesAck(y.t, p.s)
    ensures Delivered(x, y, OnDeliver(y, p.s, 0).0)
  {
    hide CallsOk, W, SeqLt, SeqLe, AckInRange, Track, PacketOk, InWindow, Shape, AcceptedTcb, Tcp.Accept, Core, TxOk, Received;
    CoreActive(y);
    var r := AcceptSplit(x, y, p);
    TrackIsAccepted(x, y, p.s, r);
    AcceptReceived(x, y, p.s, r);
    AcceptCore(x, y, p.s, r);
    AcceptTx(x, y, p.s, r);
    PlainAdded(y.o, y.calls, ACK, y.nxt);
    AcceptReply(x, y, p.s, r);
    var e := AcceptedEnd(x, y, p.s, r);
    CallsReplaced(x, e, y.calls);
    CallsReplaced(x, e, y.calls + {Call(Request(ACK, W(y.o.iss + y.nxt), []), y.nxt)});
  }

  lemma CoreActive(y: End)
    requires Core(y) && y.o.synced
    ensures y.o.active && y.t.sndNxt == W(y.o.iss + y.nxt) && TcbOk(y.t) && y.rcv >= 1
    ensures y.t.state == SynReceived ==> y.t.sndUna == W(y.o.iss + 0)
    ensures y.t.state != State.Listen && y.t.state != SynSent
  {}

  lemma AcceptReply(x: End, y: End, s: Segment, r: Accepted)
    requires TcbOk(y.t) && (r.n > 0 ==> 1 <= y.rcv && y.rcv - 1 + r.n <= |x.o.stream|)
    requires Tcp.Accept(y.t, s).t == AcceptedTcb(x, y, s, r)
    ensures var o := Tcp.Accept(y.t, s); o.reply == [] || o.reply == [Request(ACK, y.t.sndNxt, [])]
  {
    hide W, OnAck, Tcp.OnData, OnFin;
  }

  /** The only packets input() itself puts on the network are resets. */
  lemma OnlyResets(y: End, s: Segment, iss: u32)
    requires TcbOk(y.t)
    ensures forall q :: q in OnDeliver(y, s, iss).1 ==> q.s.flags.rst
  {
    hide W, SeqLt, SeqLe, AckInRange, Track;
    assert OnSynchronized(y.t, s).rst == [] || OnSynchronized(y.t, s).rst == RstFor(s);
    assert forall r :: r in RstFor(s) ==> r.flags.rst;
  }

  lemma DeliverKeeps(x: End, y: End, p: Packet, iss: u32)
    requires Arriving(x, y, p)
    ensures Delivered(x, y, OnDeliver(y, p.s, iss).0)
  {
    hide CallsOk, W, SeqLt, SeqLe, AckInRange, Track, TxOk, Received, PacketOk, OnListen, OnSynSent, OnSynchronized;
    if y.t.state == State.Listen {
      DeliverListen(x, y, p, iss);
    } else if y.t.state == SynSent {
      DeliverSynSent(x, y, p);
    } else if y.t.state == Closed {
      TrackSame(y, y.t);
    } else {
      DeliverSynchronized(x, y, p);
    }
  }

  // ----- any step of either endpoint

  lemma ReceivedGrows(x: End, x': End, y: End)
    requires Received(x, y) && Grows(x.o, x'.o)
    ensures Received(x', y)
  {
    hide W;
  }

  lemma QuietIsDelivered(x: End, y: End, y': End)
    requires Local(y) && Local(y') && Quiet(y, y') && Received(x, y) && y.una <= x.rcv
    ensures Delivered(x, y, y')
  {
    hide W, Core, TxOk, CallsOk;
  }

  lemma PacketGrows(x: End, x': End, y: End, y': End, p: Packet)
    requires PacketOk(x, y, p) && Grows(x.o, x'.o) && Grows(y.o, y'.o) && x.rcv <= x'.rcv
    ensures PacketOk(x', y', p)
  {
    hide W;
  }

  lemma ControlKeeps(e: End, a: Action)
    requires Local(e) && (a.Listen? || a.Reset? || a.Expire?)
    requires a.Listen? ==> e.t.state == Closed && !e.o.active
    ensures Local(Next(e, a).0) && Quiet(e, Next(e, a).0)
  {
    hide W, CallsOk, Core, TxOk;
    if a.Listen? {
      ListenKeeps(e);
    } else {
      ClosedCore(e);
    }
  }

  lemma ListenKeeps(e: End)
    requires Core(e) && TxOk(e) && e.t.state == Closed && !e.o.active
    ensures var e' := e.(t := Blank(State.Listen)); Core(e') && TxOk(e') && Quiet(e, e')
  {
    hide W;
  }

  /** The other actions: nothing the peer depends on moves, and no packet appears. */
  lemma QuietStep(e: End, incoming: set<Packet>, a: Action)
    requires Local(e) && Enabled(e, incoming, a) && !a.Transmit? && !a.Deliver?
    ensures Next(e, a).1 == {} && Local(Next(e, a).0) && Quiet(e, Next(e, a).0)
  {
    hide W, CallsOk, StartSend, StartClose, OnRecv, OnResume, OnEvent, RequestAbort, Shape, Core, TxOk;
    match a
    case Connect(iss) => ConnectKeeps(e, iss);
    case Resume(ok) => ResumeKeeps(e, ok);
    case Wake(n) => WakeKeeps(e, n);
    case Send(data) => StartSendKeeps(e, data);
    case Recv(n) => RecvKeeps(e, n);
    case Close => StartCloseKeeps(e);
    case AbortCall => AbortIsQuiet(e);
    case _ => ControlKeeps(e, a);
  }

  lemma WakeKeeps(e: End, n: bool)
    requires Local(e) && (e.tx.SynWaiting? || e.tx.SendWaiting? || e.tx.FinWaiting? || e.tx.Lingering?)
    ensures Local(OnEvent(e, n)) && Quiet(e, OnEvent(e, n))
  {
    hide W, CallsOk, OnEvent, Core, TxOk;
    if e.tx.SynWaiting? {
      WakeSynKeeps(e, n);
    } else if e.tx.SendWaiting? {
      WakeSendKeeps(e, n);
    } else {
      WakeCloseKeeps(e, n);
    }
  }

  lemma AbortIsQuiet(e: End)
    requires Local(e)
    ensures Local(RequestAbort(e)) && Quiet(e, RequestAbort(e))
  {
    hide W, CallsOk, Core, RequestAbort;
    AbortKeeps(e);
  }

  lemma StepDelivered(x: End, y: End, xy: set<Packet>, yx: set<Packet>, a: Action)
    requires Local(x) && Local(y) && Link(x, y, xy) && Link(y, x, yx) && Enabled(y, xy, a)
    ensures var (y', out) := Next(y, a);
            Delivered(x, y, y') && forall p :: p in out ==> PacketOk(y', x, p)
  {
    hide W, CallsOk, Core, TxOk, Received, OnTransmit, OnDeliver, Shape, InWindow;
    match a
    case Transmit(c) =>
      TransmitKeeps(y, x, c);
      QuietIsDelivered(x, y, OnTransmit(y, c).0);
    case Deliver(p, iss) =>
      DeliverKeeps(x, y, p, iss);
      OnlyResets(y, p.s, iss);
      forall q | q in OnDeliver(y, p.s, iss).1
        ensures PacketOk(OnDeliver(y, p.s, iss).0, x, q)
      {
        ResetOk(OnDeliver(y, p.s, iss).0, x, q);
      }
    case _ =>
      QuietStep(y, xy, a);
      QuietIsDelivered(x, y, Next(y, a).0);
  }

  lemma ResetOk(x: End, y: End, p: Packet)
    requires p.s.flags.rst
    ensures PacketOk(x, y, p)
  {}

  lemma LinksKept(x: End, y: End, y': End, xy: set<Packet>, yx: set<Packet>, out: set<Packet>)
    requires Link(x, y, xy) && Link(y, x, yx) && Delivered(x, y, y')
    requires forall p :: p in out ==> PacketOk(y', x, p)
    ensures Link(x, y', xy) && Link(y', x, yx + out)
  {
    hide W, Core, TxOk, CallsOk, Received, PacketOk;
    ReceivedGrows(y, y', x);
    forall p | p in xy ensures PacketOk(x, y', p) { PacketGrows(x, x, y, y', p); }
    forall p | p in yx ensures PacketOk(y', x, p) { PacketGrows(y, y', x, x, p); }
  }

  /** connect() sends its SYN six times at most, close() gives up on the sixth timeout. */
  lemma RetryLimits(e: End, notified: bool)
    ensures e.tx.SynWaiting? && e.t.state != Established && e.t.state != Closed ==>
      if e.tx.tries < 5 then OnEvent(e, notified).tx == SynSending(e.tx.tries + 1) && OnEvent(e, notified).t == e.t
      else OnEvent(e, notified).tx == Idle && OnEvent(e, notified).t == e.t.(state := Closed)
    ensures e.tx.FinWaiting? && SeqLt(e.t.sndUna, e.t.sndNxt) && e.t.state != Closed && !notified ==>
      && OnEvent(e, notified).t == e.t.(retries := e.t.retries + 1)
      && OnEvent(e, notified).tx == if e.t.retries < 5 then FinSending(e.tx.finSeq) else Idle
  {
    hide W, SeqLt;
  }

  /** How close() ends: with a reset while something is unacknowledged, otherwise after waiting
      for the peer's FIN in FinWait2, once more with a reset if that did not come. */
  lemma CloseEnds(e: End, b: bool)
    ensures var r := Call(Request(Flags(false, false, true, false, true), e.t.sndNxt, []), e.nxt);
            var unacked := SeqLt(e.t.sndUna, e.t.sndNxt) && e.t.state != Closed;
            && (CloseTail(e).tx == if !unacked && e.t.state == FinWait2 then Lingering else Idle)
            && (unacked && e.t.state != State.Listen && e.t.state != SynSent ==> CloseTail(e).calls == e.calls + {r})
            && (!unacked ==> CloseTail(e).calls == e.calls)
            && (e.tx.FinSending? && b ==> OnResume(e, b) == e.(tx := FinWaiting(e.tx.finSeq)))
            && (e.tx.FinSending? && !b ==> OnResume(e, b) == CloseTail(e))
            && (e.tx.Lingering? ==>
                  && OnEvent(e, b).tx == Idle && OnEvent(e, b).t == e.t
                  && OnEvent(e, b).calls == if e.t.state == FinWait2 then e.calls + {r} else e.calls)
  {
    hide W, SeqLt;
  }

  // ----- the size of segments

  /** The largest segment the peer agreed to; before it is known there is no data to send. */
  function Mss(e: End): nat { if e.o.synced then e.t.sndMss else 0 }

  /** A segment as RFC 793 knows them: SYN, SYN with acknowledgment, FIN with acknowledgment,
      reset, or acknowledgment with or without data; only data is pushed. */
  predicate Formed(f: Flags, data: seq<u8>) {
    && (f.syn || f.fin || f.rst ==> data == [] && !f.psh) && (f.psh ==> data != [])
    && (f.syn ==> !f.fin && !f.rst) && (f.fin ==> !f.rst) && (f.ack || f.syn || f.rst)
    && (f.fin || data != [] ==> f.ack)
  }

  /** Every call and packet of `e` is formed so, and carries no more than the mss. */
  ghost predicate Sized(e: End, net: set<Packet>) {
    && (forall c :: c in e.calls ==> |c.r.data| <= Mss(e) && Formed(c.r.flags, c.r.data))
    && (forall p :: p in net ==> |p.s.data| <= Mss(e) && Formed(p.s.flags, p.s.data))
  }

  /** The mss stays once it is known, and new calls respect it. */
  ghost predicate SizeKept(e: End, e': End) {
    && Mss(e) <= Mss(e') && (e.o.synced ==> e'.o.synced && e'.t.sndMss == e.t.sndMss)
    && forall c :: c in e'.calls ==> c in e.calls || (|c.r.data| <= Mss(e') && Formed(c.r.flags, c.r.data))
  }

  lemma FillTopSized(e: End, data: seq<u8>, base: u32, end: u32)
    requires e.o.synced && TcbOk(e.t)
    ensures SizeKept(e, FillTop(e, data, base, end))
  {
    EmitPositive(e.t, end);
    hide W, SeqLt;
  }

  lemma EmitPositive(t: Tcb, end: u32)
    requires TcbOk(t)
    ensures FillStep(t, end).Emit? ==> FillStep(t, end).count >= 1
  {}

  lemma SendTopSized(e: End, data: seq<u8>, base: u32, end: u32)
    requires e.o.synced && TcbOk(e.t)
    ensures SizeKept(e, SendTop(e, data, base, end))
  {
    hide W, SeqLt, FillTop;
    FillTopSized(e, data, base, end);
  }

  lemma CloseSized(e: End, finSeq: u32)
    ensures SizeKept(e, CloseTail(e)) && SizeKept(e, FinTop(e, finSeq))
  {
    hide W, SeqLt;
  }

  lemma StartCloseSized(e: End)
    ensures SizeKept(e, StartClose(e))
  {
    hide W, FinTop;
    match OnClose(e.t)
    case (t, None) =>
    case (t, Some(finSeq)) =>
      CloseSized(Finishing(e, t), finSeq);
  }

  lemma ResumeSized(e: End, ok: bool)
    requires (e.tx.Sending? ==> e.o.synced) && TcbOk(e.t)
    ensures SizeKept(e, OnResume(e, ok))
  {
    hide W, FillTop, CloseTail;
    CloseSized(e, 0);
    if e.tx.Sending? {
      var Sending(data, base, end, n) := e.tx;
      FillTopSized(Filled(e, n), data, base, end);
    }
  }

  lemma WakeSized(e: End, notified: bool)
    requires (e.tx.SendWaiting? ==> e.o.synced) && TcbOk(e.t)
    ensures SizeKept(e, OnEvent(e, notified))
  {
    hide W, SendTop, FinTop, CloseTail;
    if e.tx.SendWaiting? {
      if OnWake(e.t, notified).Some? {
        var t := OnWake(e.t, notified).value;
        SendTopSized(Woken(e, t, notified), e.tx.data, e.tx.base, e.tx.end);
      }
    } else if e.tx.FinWaiting? {
      FinWakeSized(e, notified);
    } else {
      hide SizeKept;
      OtherWakeSized(e, notified);
    }
  }

  lemma FinWakeSized(e: End, notified: bool)
    requires e.tx.FinWaiting?
    ensures SizeKept(e, OnEvent(e, notified))
  {
    hide W, FinTop, CloseTail;
    CloseSized(e, e.tx.finSeq);
    CloseSized(e.(t := e.t.(retries := e.t.retries + 1)), e.tx.finSeq);
  }

  lemma OtherWakeSized(e: End, notified: bool)
    requires !e.tx.SendWaiting? && !e.tx.FinWaiting?
    ensures SizeKept(e, OnEvent(e, notified))
  {
    hide W;
  }

  /** A segment never changes the mss of a synchronized connection, and replies are empty. */
  lemma SegmentSized(t: Tcb, s: Segment, iss: u32)
    requires TcbOk(t)
    ensures var o := OnSegment(t, s, iss);
            && (t.state != State.Listen && t.state != SynSent ==> o.t.sndMss == t.sndMss)
            && (forall r :: r in o.reply ==> r.data == [] && Formed(r.flags, [])) && (forall q :: q in o.rst ==> q.data == [] && Formed(q.flags, []))
  {
    hide W, SeqLt, SeqLe, AckInRange, NegotiateMss, Tcp.Fresh;
  }

  lemma DeliverSized(e: End, s: Segment, iss: u32)
    requires Local(e)
    ensures var (e', out) := OnDeliver(e, s, iss);
            SizeKept(e, e') && forall p :: p in out ==> p.s.data == [] && Formed(p.s.flags, [])
  {
    hide W, OnSegment, CallsOk, TxOk;
    SegmentSized(e.t, s, iss);
  }

  lemma SyncedSending(e: End)
    requires Local(e) && (e.tx.Sending? || e.tx.SendWaiting? || Sendable(e.t.state))
    ensures e.o.synced
  {
    hide W, CallsOk;
  }

  lemma NextSized(e: End, incoming: set<Packet>, a: Action)
    requires Local(e) && Enabled(e, incoming, a)
    ensures var (e', out) := Next(e, a);
            && SizeKept(e, e')
            && forall p :: p in out ==>
                 (p.s.data == [] && Formed(p.s.flags, []))
                 || exists c :: c in e.calls && p.s.data == c.r.data && p.s.flags == c.r.flags
  {
    hide W, CallsOk, Core, TxOk, StartSend, StartClose, OnResume, OnEvent, OnDeliver, Shape, InWindow, SizeKept;
    match a
    case Resume(ok) =>
      if e.tx.Sending? { SyncedSending(e); }
      ResumeSized(e, ok);
    case Wake(n) =>
      if e.tx.SendWaiting? { SyncedSending(e); }
      WakeSized(e, n);
    case Deliver(p, iss) => DeliverSized(e, p.s, iss);
    case Send(data) => SendSized(e, data);
    case Close => StartCloseSized(e);
    case Transmit(c) => SameSize(e, OnTransmit(e, c).0);
    case _ => OthersSized(e, a);
  }

  lemma SendSized(e: End, data: seq<u8>)
    requires Local(e)
    ensures SizeKept(e, StartSend(e, data))
  {
    hide W, CallsOk, Core, TxOk, SendTop;
    if Sendable(e.t.state) && data != [] {
      SyncedSending(e);
      var base := e.t.sndNxt;
      SendTopSized(Started(e, data), data, base, W(base + |data|));
    }
  }

  lemma SameSize(e: End, e': End)
    requires e'.calls == e.calls && e'.o == e.o && e'.t.sndMss == e.t.sndMss
    ensures SizeKept(e, e')
  {}

  lemma OthersSized(e: End, a: Action)
    requires Local(e) && (a.Listen? || a.Connect? || a.Recv? || a.AbortCall? || a.Reset? || a.Expire?)
    requires a.Listen? || a.Connect? ==> !e.o.active
    ensures SizeKept(e, Next(e, a).0)
  {
    hide W, CallsOk, TxOk;
  }

  /** Every step of an endpoint keeps its calls and packets within the mss. */
  lemma SizedStep(e: End, incoming: set<Packet>, net: set<Packet>, a: Action)
    requires Local(e) && Sized(e, net) && Enabled(e, incoming, a)
    ensures var (e', out) := Next(e, a); Sized(e', net + out)
  {
    hide Local, Next, Enabled, Mss;
    NextSized(e, incoming, a);
  }

  /** A chunk that was just taken is within the peer's window, or one byte into a closed one
      with nothing in flight. */
  ghost predicate ChunkFits(e: End) {
    e.tx.Sending? ==>
      && 1 <= e.tx.count <= e.t.sndMss
      && e.nxt - e.una + e.tx.count <= (if e.t.sndWnd == 0 then 1 else e.t.sndWnd)
  }

  lemma FillTopFits(e: End, data: seq<u8>, base: u32, end: u32)
    requires Local(e.(tx := SendWaiting(data, base, end)))
    ensures ChunkFits(FillTop(e, data, base, end))
  {
    hide W, SeqLt, FillStep, CallsOk, SendInv, SendRequest;
    var e0 := e.(tx := SendWaiting(data, base, end));
    RunningCore(e0, data, base, end);
    RunningIsSendInv(e0, data, base, end);
    SendDistances(e.t, data, base, end);
    if FillStep(e.t, end).Emit? {
      FillFits(e.t, data, base, end);
    }
  }

  lemma SendTopFits(e: End, data: seq<u8>, base: u32, end: u32)
    requires Local(e.(tx := SendWaiting(data, base, end)))
    ensures ChunkFits(SendTop(e, data, base, end))
  {
    hide W, SeqLt, FillTop, CallsOk, Local;
    FillTopFits(e, data, base, end);
  }

  /** Whenever the sending task runs, a chunk it leaves with the network fits. */
  lemma NextFits(e: End, incoming: set<Packet>, a: Action)
    requires Local(e) && Enabled(e, incoming, a) && (a.Send? || a.Resume? || a.Wake?)
    ensures ChunkFits(Next(e, a).0)
  {
    hide W, CallsOk, Local, FillTop, SendTop, CloseTail, FinTop, ChunkFits, Started, Filled, Woken, Sendable, OnWake;
    NotSending(e);
    match a
    case Send(data) =>
      if Sendable(e.t.state) && data != [] {
        StartReady(e, data);
        SendTopFits(Started(e, data), data, e.t.sndNxt, W(e.t.sndNxt + |data|));
      }
    case Resume(ok) => ResumeFits(e, ok);
    case Wake(n) => WakeFits(e, n);
  }

  lemma NotSending(e: End)
    ensures !e.tx.Sending? ==> ChunkFits(e)
  {}

  lemma ResumeFits(e: End, ok: bool)
    requires Local(e) && (e.tx.SynSending? || e.tx.Sending? || e.tx.FinSending?)
    ensures ChunkFits(OnResume(e, ok))
  {
    hide W, CallsOk, Local, FillTop, Filled;
    if e.tx.Sending? && ok {
      FilledReady(e);
      FillTopFits(Filled(e, e.tx.count), e.tx.data, e.tx.base, e.tx.end);
    }
  }

  lemma WakeFits(e: End, notified: bool)
    requires Local(e) && (e.tx.SynWaiting? || e.tx.SendWaiting? || e.tx.FinWaiting? || e.tx.Lingering?)
    ensures ChunkFits(OnEvent(e, notified))
  {
    hide W, CallsOk, Local, SendTop, Woken, OnWake;
    if e.tx.SendWaiting? && OnWake(e.t, notified).Some? {
      WokenReady(e, notified);
      WokenTx(e, OnWake(e.t, notified).value, notified);
      SendTopFits(Woken(e, OnWake(e.t, notified).value, notified), e.tx.data, e.tx.base, e.tx.end);
    }
  }

  lemma WokenTx(e: End, t: Tcb, notified: bool)
    ensures Woken(e, t, notified) == Woken(e, t, notified).(tx := e.tx)
  {}

  // ----- the system

  /** Endpoints `a` and `b`; `ab` is every packet `a` ever sent, `ba` every packet of `b`. */
  datatype System = System(a: End, b: End, ab: set<Packet>, ba: set<Packet>)
  datatype Event = Event(atA: bool, act: Action)

  const START: System := System(FRESH, FRESH, {}, {})

  ghost predicate Invariant(s: System) {
    Local(s.a) && Local(s.b) && Link(s.a, s.b, s.ab) && Link(s.b, s.a, s.ba) && Sized(s.a, s.ab) && Sized(s.b, s.ba)
  }

  predicate Possible(s: System, v: Event) {
    TcbOk(s.a.t) && TcbOk(s.b.t) && if v.atA then Enabled(s.a, s.ba, v.act) else Enabled(s.b, s.ab, v.act)
  }

  function After(s: System, v: Event): System
    requires Possible(s, v)
  {
    if v.atA then
      var (a, out) := Next(s.a, v.act); s.(a := a, ab := s.ab + out)
    else
      var (b, out) := Next(s.b, v.act); s.(b := b, ba := s.ba + out)
  }

  /** `run` is a run: it starts with two closed connections and each state follows from the
      one before by the event at its place. */
  predicate IsRun(run: seq<System>, events: seq<Event>) {
    && |run| == |events| + 1 && run[0] == START
    && forall i :: 0 <= i < |events| ==> Possible(run[i], events[i]) && run[i + 1] == After(run[i], events[i])
  }

  lemma StepKeepsInvariant(s: System, v: Event)
    requires Invariant(s) && Possible(s, v)
    ensures Invariant(After(s, v))
  {
    hide W, Core, TxOk, CallsOk, Received, PacketOk, Next, Enabled, Sized;
    if v.atA {
      SizedStep(s.a, s.ba, s.ab, v.act);
      StepDelivered(s.b, s.a, s.ba, s.ab, v.act);
      var (a, out) := Next(s.a, v.act);
      LinksKept(s.b, s.a, a, s.ba, s.ab, out);
    } else {
      SizedStep(s.b, s.ab, s.ba, v.act);
      StepDelivered(s.a, s.b, s.ab, s.ba, v.act);
      var (b, out) := Next(s.b, v.act);
      LinksKept(s.a, s.b, b, s.ab, s.ba, out);
    }
  }

  lemma StartInvariant()
    ensures Invariant(START)
  {
    assert [] + [] == FRESH.got + FRESH.t.rx;
  }

  lemma {:induction false} RunKeepsInvariant(run: seq<System>, events: seq<Event>, k: nat)
    requires IsRun(run, events) && k < |run|
    ensures Invariant(run[k])
  {
    if k == 0 {
      StartInvariant();
    } else {
      RunKeepsInvariant(run, events, k - 1);
      StepKeepsInvariant(run[k - 1], events[k - 1]);
    }
  }

  // ----- what every run guarantees

  /** The bytes recv() returned followed by the bytes in the ring. */
  function Arrived(y: End): seq<u8> { y.got + y.t.rx }

  /** Everything a direction promises, whatever the network did. */
  ghost predicate Safe(x: End, y: End, net: set<Packet>) {
    // What arrived is a prefix of what was sent.
    && Arrived(y) <= x.o.stream
    // What send() reported as sent has arrived.
    && x.acked <= |Arrived(y)|
    // The end of the stream is reported only after every byte before the FIN was returned.
    && (y.eof ==> 1 <= x.o.fin <= 1 + |x.o.stream| && y.got == x.o.stream[..x.o.fin - 1])
    && (y.eof && !x.gaveUp ==> y.got == x.o.stream)
    // An orderly close completes only after the peer has taken everything and the FIN.
    && ((x.t.state == FinWait2 || x.t.state == TimeWait) && !x.gaveUp ==> y.t.rxFin && Arrived(y) == x.o.stream)
    // The sender never reads outside the data it was given.
    && !x.fault
    && (x.tx.Sending? || x.tx.SendWaiting? ==> SendInv(x.t, x.tx.data, x.tx.base, x.tx.end))
    // Every data segment carries the stream's bytes at its sequence number.
    && (forall p :: p in net && !p.s.flags.rst && p.s.data != [] ==>
          && 1 <= p.aseq && p.aseq - 1 + |p.s.data| <= |x.o.stream|
          && p.s.seqNo == W(x.o.iss + p.aseq)
          && p.s.data == x.o.stream[p.aseq - 1..p.aseq - 1 + |p.s.data|])
    // No segment, sent or still to be sent, carries more than the peer's mss.
    && (forall c :: c in x.calls && c.r.data != [] ==> x.o.synced && |c.r.data| <= x.t.sndMss)
    && (forall p :: p in net && p.s.data != [] ==> x.o.synced && |p.s.data| <= x.t.sndMss)
    && (forall p :: p in net ==> Formed(p.s.flags, p.s.data))
  }

  lemma InvariantIsSafe(x: End, y: End, net: set<Packet>)
    requires Local(x) && Local(y) && Link(x, y, net) && Sized(x, net)
    ensures Safe(x, y, net)
  {
    hide W, CallsOk, SendInv;
    if x.tx.Sending? || x.tx.SendWaiting? {
      RunningIsSendInv(x, x.tx.data, x.tx.base, x.tx.end);
    }
    if y.eof {
      assert y.got + [] == y.got;
    }
    assert x.o.stream[..|x.o.stream|] == x.o.stream;
  }

  /** In every run of two endpoints over a network that loses, duplicates, delays and
      reorders, both directions are safe in every state. */
  lemma EveryRunIsSafe(run: seq<System>, events: seq<Event>)
    requires IsRun(run, events)
    ensures forall k :: 0 <= k < |run| ==>
      Safe(run[k].a, run[k].b, run[k].ab) && Safe(run[k].b, run[k].a, run[k].ba)
  {
    hide W, Core, TxOk, CallsOk, Received, PacketOk, IsRun, Safe;
    forall k | 0 <= k < |run|
      ensures Safe(run[k].a, run[k].b, run[k].ab) && Safe(run[k].b, run[k].a, run[k].ba)
    {
      RunKeepsInvariant(run, events, k);
      InvariantIsSafe(run[k].a, run[k].b, run[k].ab);
      InvariantIsSafe(run[k].b, run[k].a, run[k].ba);
    }
  }

  /** In every run a chunk that the sending task takes fits the peer's window, as far as the
      sender knows it, and the mss. */
  lemma EveryChunkFits(run: seq<System>, events: seq<Event>, k: nat)
    requires IsRun(run, events) && k < |events|
    requires events[k].act.Send? || events[k].act.Resume? || events[k].act.Wake?
    ensures ChunkFits(if events[k].atA then run[k + 1].a else run[k + 1].b)
  {
    hide W, Core, TxOk, CallsOk, Link, Sized, Next, Enabled, ChunkFits;
    RunKeepsInvariant(run, events, k);
    if events[k].atA {
      NextFits(run[k].a, run[k].ba, events[k].act);
    } else {
      NextFits(run[k].b, run[k].ab, events[k].act);
    }
  }

  function Side(s: System, atA: bool): End { if atA then s.a else s.b }

  function Sent(s: System, atA: bool): set<Packet> { if atA then s.ab else s.ba }

  /** In every run, once an endpoint has taken the peer's SYN, no segment it sends or is about
      to send is longer than the mss that this SYN announced, if it announced any, or 536. */
  lemma {:induction false} EveryRunKeepsMss(run: seq<System>, events: seq<Event>, k: nat, n: nat, atA: bool)
    requires IsRun(run, events) && k < n <= |events|
    requires events[k].act.Deliver? && !Side(run[k], atA).o.synced && Side(run[k + 1], atA).o.synced
    ensures var e, most := Side(run[n], atA), Announced(events[k].act.p.s);
            && e.o.synced && Agreed(e.t.sndMss, events[k].act.p.s.mss)
            && (forall c :: c in e.calls ==> |c.r.data| <= most)
            && (forall q :: q in Sent(run[n], atA) ==> |q.s.data| <= most)
    decreases n
  {
    hide W, Local, Link, Next, Enabled, IsRun, Sized, Agreed;
    RunAt(run, events, n - 1);
    RunKeepsInvariant(run, events, n - 1);
    RunKeepsInvariant(run, events, n);
    if n == k + 1 {
      SyncedBySyn(run[k], events[k], atA);
    } else {
      EveryRunKeepsMss(run, events, k, n - 1, atA);
      MssStays(run[n - 1], events[n - 1], atA);
    }
    SizedMost(Side(run[n], atA), Sent(run[n], atA), events[k].act.p.s);
  }

  /** The longest segment the SYN allows. */
  function Announced(s: Segment): nat { if s.mss == 0 then 536 else s.mss as nat }

  lemma SizedMost(e: End, net: set<Packet>, s: Segment)
    requires Sized(e, net) && e.o.synced && Agreed(e.t.sndMss, s.mss)
    ensures forall c :: c in e.calls ==> |c.r.data| <= Announced(s)
    ensures forall q :: q in net ==> |q.s.data| <= Announced(s)
  {}

  lemma RunAt(run: seq<System>, events: seq<Event>, k: nat)
    requires IsRun(run, events) && k < |events|
    ensures |run| == |events| + 1 && Possible(run[k], events[k]) && run[k + 1] == After(run[k], events[k])
  {}

  lemma MssStays(s: System, v: Event, atA: bool)
    requires Invariant(s) && Possible(s, v) && Side(s, atA).o.synced
    ensures Side(After(s, v), atA).o.synced && Side(After(s, v), atA).t.sndMss == Side(s, atA).t.sndMss
  {
    hide W, Local, Link, Next, Enabled, Sized;
    if v.atA == atA {
      NextSized(Side(s, atA), if atA then s.ba else s.ab, v.act);
    }
  }

  lemma NotSynced(e: End)
    requires Local(e) && !e.o.synced
    ensures e.t.state == Closed || e.t.state == State.Listen || e.t.state == SynSent
  {
    hide W, CallsOk, TxOk;
  }

  lemma SyncedBySyn(s: System, v: Event, atA: bool)
    requires Invariant(s) && Possible(s, v) && v.act.Deliver?
    requires !Side(s, atA).o.synced && Side(After(s, v), atA).o.synced
    ensures Agreed(Side(After(s, v), atA).t.sndMss, v.act.p.s.mss)
  {
    hide W, Link, Enabled, Sized, Agreed, OnSegment, CallsOk, TxOk;
    var e, seg, iss := Side(s, atA), v.act.p.s, v.act.iss;
    NotSynced(e);
    SynTaken(e.t, seg, iss);
  }
}
