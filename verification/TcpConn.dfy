/** Connection objects, the receive ring and the connection table, updated in place as the
    source does; every method is proved against the functions of module `Tcp`. */
module TcpConn {
  import opened Words
  import opened Arith
  import opened Tcp

  const N: int := RX_BUFFER_SIZE
  const TABLE_SIZE: int := 4
  const TIME_WAIT_MS: nat := 10_000

  /** Data processing that has nothing to take. */
  lemma NothingTaken(t: Tcb, s: Segment)
    requires TcbOk(t) && (!Receiving(t.state) || Tcp.Fresh(t, s) == [])
    ensures Tcp.OnData(t, s) == t
  {
    assert t.rx + [] == t.rx;
  }

  lemma MssPositive(mss: u16)
    ensures NegotiateMss(mss) >= 1
  {}

  /** The ring slot of the k-th byte after `h`. */
  function Slot(h: nat, k: nat): nat { (h + k) % N }

  /** The bytes a ring holds, oldest first. */
  ghost function Ring(buf: seq<u8>, head: nat, len: nat): (s: seq<u8>)
    requires |buf| == N && len <= N
    ensures |s| == len
  {
    seq(len, i requires 0 <= i < len => buf[Slot(head, i)])
  }

  /** Distinct positions of a window no longer than the ring are distinct ring slots. */
  lemma SlotDistinct(h: nat, i: nat, j: nat)
    requires i < j < i + N
    ensures Slot(h, i) != Slot(h, j)
  {
    var qi, qj := (h + i) / N, (h + j) / N;
    if qi == qj {
    } else {
      assert qi < qj;
    }
  }

  lemma SlotShift(h: nat, n: nat, k: nat)
    ensures Slot(Slot(h, n), k) == Slot(h, n + k)
  {
    var q := (h + n) / N;
    assert h + (n + k) == q * N + (Slot(h, n) + k);
    var p := (Slot(h, n) + k) / N;
    assert h + (n + k) == (q + p) * N + Slot(Slot(h, n), k);
    RemainderUnique(h + (n + k), q + p, Slot(Slot(h, n), k));
  }

  lemma RemainderUnique(x: int, q: int, r: int)
    requires x == q * N + r && 0 <= r < N
    ensures x % N == r
  {
    DivModUnique(x, N, q, r);
  }

  lemma RingAppend(buf: seq<u8>, h: nat, n: nat, x: u8)
    requires |buf| == N && n < N
    ensures Ring(buf[Slot(h, n) := x], h, n + 1) == Ring(buf, h, n) + [x]
  {
    forall k: nat | k < n
      ensures Slot(h, k) != Slot(h, n)
    {
      SlotDistinct(h, k, n);
    }
  }

  class Conn {
    var state: State
    var localPort: u16
    var remotePort: u16
    var remoteAddr: u32
    var sndUna: u32
    var sndNxt: u32
    var sndWnd: u16
    var sndMss: u16
    var retries: nat
    var rcvNxt: u32
    const rxBuf: array<u8>
    var rxHead: nat
    var rxLen: nat
    var rxFin: bool
    var rxWndClosed: bool
    var expireMs: nat
    // Whether each event was notified since it was last made new.
    var txSignal: bool
    var rxSignal: bool

    ghost function Signals(): Wakes
      reads this`txSignal, this`rxSignal
    {
      Wakes(txSignal, rxSignal)
    }

    ghost predicate Valid()
      reads this`rxHead, this`rxLen, this`sndMss
    {
      RingOk() && sndMss >= 1
    }

    ghost predicate RingOk()
      reads this`rxHead, this`rxLen
    {
      rxBuf.Length == N && rxHead < N && rxLen <= N
    }

    /** The bytes in the ring, oldest first. */
    ghost function Contents(): (s: seq<u8>)
      requires RingOk()
      reads this`rxHead, this`rxLen, rxBuf
      ensures |s| == rxLen
    {
      Ring(rxBuf[..], rxHead, rxLen)
    }

    ghost function View(): (t: Tcb)
      requires Valid()
      reads this, rxBuf
      ensures TcbOk(t)
    {
      Tcb(state, sndUna, sndNxt, sndWnd, sndMss, retries, rcvNxt, Contents(), rxFin, rxWndClosed)
    }

    constructor ()
      ensures Valid() && fresh(rxBuf) && state == Closed && View() == Blank(Closed)
    {
      state := Closed; localPort := 0; remotePort := 0; remoteAddr := 0;
      sndUna := 0; sndNxt := 0; sndWnd := 0; sndMss := DEFAULT_MSS; retries := 0;
      rcvNxt := 0; rxHead := 0; rxLen := 0; rxFin := false; rxWndClosed := false; expireMs := 0; txSignal := false; rxSignal := false;
      rxBuf := new u8[N](_ => 0);
    }

    /** Clears the per-connection fields; a record is reusable. */
    method Reinit()
      requires Valid()
      modifies this
      ensures Valid() && View() == Blank(old(state)) && Signals() == NOBODY
    {
      ClearReceiver();
      hide W, Contents;
      sndUna := 0;
      sndNxt := 0;
      sndWnd := 0;
      sndMss := DEFAULT_MSS;
      retries := 0;
      expireMs := 0;
      txSignal := false;
      rxSignal := false;
    }

    method ClearReceiver()
      requires Valid()
      modifies this`rcvNxt, this`rxHead, this`rxLen, this`rxFin, this`rxWndClosed
      ensures Valid() && View() == old(View()).(rcvNxt := 0, rx := [], rxFin := false, rxWndClosed := false)
    {
      hide W, Contents;
      rcvNxt := 0;
      rxHead := 0;
      rxLen := 0;
      rxFin := false;
      rxWndClosed := false;
      Emptied();
    }

    lemma Emptied()
      requires Valid() && rxLen == 0
      ensures Contents() == []
    {}

    /** (Re)opening: the addresses are set before the port is bound. */
    method Prepare(local: u16, port: u16, addr: u32)
      requires Valid()
      modifies this
      ensures Valid() && View() == Blank(old(state)) && Signals() == NOBODY
      ensures localPort == local && remotePort == port && remoteAddr == addr
    {
      Reinit();
      hide *;
      localPort := local;
      remotePort := port;
      remoteAddr := addr;
    }

    /** Starts the handshake with the chosen sequence number. */
    method StartSyn(iss: u32, st: State)
      requires Valid()
      modifies this`sndUna, this`sndNxt, this`state
      ensures Valid() && View() == old(View()).(sndUna := iss, sndNxt := W(iss + 1), state := st)
    {
      hide W, Contents;
      sndUna := iss;
      sndNxt := W(iss + 1);
      state := st;
    }

    /** What the peer's SYN says about it. */
    method LearnPeer(s: Segment)
      requires Valid()
      modifies this`rcvNxt, this`sndMss, this`sndWnd
      ensures Valid()
      ensures View() == old(View()).(rcvNxt := W(s.seqNo + 1), sndMss := NegotiateMss(s.mss), sndWnd := s.wnd)
    {
      hide W, Contents, NegotiateMss;
      rcvNxt := W(s.seqNo + 1);
      MssPositive(s.mss);
      sndMss := NegotiateMss(s.mss);
      sndWnd := s.wnd;
    }

    /** A listener takes the first valid SYN. */
    method AcceptSyn(src: u32, srcPort: u16, s: Segment, iss: u32) returns (reply: seq<Request>)
      requires Valid() && state == State.Listen && s.flags.syn && !s.flags.ack && !s.flags.rst
      modifies this`remoteAddr, this`remotePort, this`rcvNxt, this`sndMss, this`sndWnd, this`sndUna, this`sndNxt, this`state
      ensures Valid() && Outcome(View(), reply, []) == OnListen(old(View()), s, iss)
      ensures localPort == old(localPort) && state == SynReceived && rxFin == old(rxFin)
      ensures remoteAddr == src && remotePort == srcPort && Signals() == old(Signals())
    {
      hide W, Contents, NegotiateMss;
      remoteAddr := src;
      remotePort := srcPort;
      LearnPeer(s);
      StartSyn(iss, SynReceived);
      reply := [Request(SYN_ACK, iss, [])];
    }

    method AcceptSynAck(s: Segment) returns (reply: seq<Request>)
      requires Valid() && state == SynSent && s.flags.syn && s.flags.ack && !s.flags.rst
      requires SeqLt(sndUna, s.ackNo) && SeqLe(s.ackNo, sndNxt)
      modifies this`rcvNxt, this`sndMss, this`sndWnd, this`sndUna, this`state
      ensures Valid() && Outcome(View(), reply, []) == OnSynSent(old(View()), s)
      ensures localPort == old(localPort) && remotePort == old(remotePort) && remoteAddr == old(remoteAddr)
      ensures state == Established && rxFin == old(rxFin) && Signals() == old(Signals())
    {
      hide W, Contents, NegotiateMss;
      LearnPeer(s);
      sndUna := s.ackNo;
      state := Established;
      reply := [Request(ACK, sndNxt, [])];
    }

    /** input() after the await of the acknowledgment that completes an active open. */
    method Connected()
      modifies this`txSignal
      ensures Signals() == Also(old(Signals()), Wakes(true, false))
    {
      txSignal := true;
    }

    /** Appends what fits of `data` to the ring and says how much that was. */
    method RxPush(data: seq<u8>) returns (count: nat)
      requires Valid()
      modifies this`rxLen, rxBuf
      ensures Valid() && count == Min(|data|, N - old(rxLen))
      ensures Contents() == old(Contents()) + data[..count]
    {
      count := Min(|data|, N - rxLen);
      ghost var was := Contents();
      var i := 0;
      while i < count
        invariant 0 <= i <= count && rxLen == old(rxLen)
        invariant Ring(rxBuf[..], rxHead, rxLen + i) == was + data[..i]
      {
        ghost var before := rxBuf[..];
        rxBuf[(rxHead + rxLen + i) % N] := data[i];
        RingAppend(before, rxHead, rxLen + i, data[i]);
        assert rxBuf[..] == before[Slot(rxHead, rxLen + i) := data[i]];
        assert data[..i + 1] == data[..i] + [data[i]];
        i := i + 1;
      }
      rxLen := rxLen + count;
    }

    /** Removes up to `|out|` bytes from the front of the ring into `out`. */
    method RxPop(out: array<u8>) returns (count: nat)
      requires Valid() && out != rxBuf
      modifies this`rxHead, this`rxLen, out
      ensures Valid() && count == Min(out.Length, old(rxLen))
      ensures out[..count] == old(Contents())[..count]
      ensures out[count..] == old(out[count..])
      ensures Contents() == old(Contents())[count..]
    {
      count := Min(out.Length, rxLen);
      ghost var was := Contents();
      for i := 0 to count
        invariant rxBuf[..] == old(rxBuf[..]) && rxLen == old(rxLen) && rxHead == old(rxHead)
        invariant forall k :: 0 <= k < i ==> out[k] == was[k]
        invariant forall k :: i <= k < out.Length ==> out[k] == old(out[k])
      {
        assert Slot(rxHead, i) == (rxHead + i) % N;
        out[i] := rxBuf[(rxHead + i) % N];
      }
      ghost var h := rxHead;
      rxHead := (rxHead + count) % N;
      rxLen := rxLen - count;
      forall k: nat | k < rxLen
        ensures Contents()[k] == was[count..][k]
      {
        SlotShift(h, count, k);
      }
    }

    /** Builds one segment from the current fields; the Tcb effect is the closed-window mark. */
    method SendSegment(flags: Flags, seqNo: u32, data: seq<u8>) returns (s: Segment)
      requires Valid()
      modifies this`rxWndClosed
      ensures Valid() && (View(), s) == Tcp.SendSegment(old(View()), flags, seqNo, data)
    {
      var wnd: u16 := Min(N - rxLen, 0xffff);
      if wnd == 0 {
        rxWndClosed := true;
      }
      s := Segment(flags, seqNo, if flags.ack then rcvNxt else 0, wnd, if flags.syn then RX_MSS else 0, data);
    }

    /** In-order payload: trim what was already received, push what fits. */
    method OnData(s: Segment)
      requires Valid()
      modifies this`rxLen, this`rcvNxt, this`rxSignal, rxBuf
      ensures Valid() && View() == Tcp.OnData(old(View()), s)
      ensures Signals() == Also(old(Signals()), WakesOnData(old(View()), s))
    {
      hide W, Contents, SeqLt;
      assert View().rx + [] == View().rx;
      if |s.data| != 0 && (state == Established || state == FinWait1 || state == FinWait2) {
        var body, bseq := s.data, s.seqNo;
        if SeqLt(bseq, rcvNxt) {
          var skip := W(rcvNxt - bseq);
          body := if skip < |body| then body[skip..] else [];
          bseq := rcvNxt;
        }
        if |body| != 0 && bseq == rcvNxt {
          TakeBytes(body);
        } else {
          NothingTaken(old(View()), s);
        }
      } else {
        NothingTaken(old(View()), s);
      }
    }

    method TakeBytes(body: seq<u8>)
      requires Valid()
      modifies this`rxLen, this`rcvNxt, this`rxSignal, rxBuf
      ensures Valid()
      ensures var t := old(View());
              var n := Min(|body|, RxFree(t));
              && View() == t.(rx := t.rx + body[..n], rcvNxt := W(t.rcvNxt + n))
              && Signals() == Also(old(Signals()), Wakes(false, n > 0))
    {
      hide W, Contents;
      var accepted := RxPush(body);
      rcvNxt := W(rcvNxt + accepted);
      if accepted != 0 {
        rxSignal := true;
      }
    }

    method EnterTimeWait(now: nat)
      requires Valid()
      modifies this`state, this`expireMs, this`txSignal, this`rxSignal
      ensures Valid() && View() == old(View()).(state := TimeWait) && expireMs == now + 10_000 && Signals() == BOTH
    {
      hide W, Contents, NegotiateMss;
      state := TimeWait;
      expireMs := now + TIME_WAIT_MS;
      txSignal := true;
      rxSignal := true;
    }

    /** Advances `snd_una` and follows the state machine when everything is acknowledged;
        `closed` tells the table that the passive close is complete. */
    method TakeAck(s: Segment, now: nat) returns (closed: bool)
      requires Valid() && FinStates(state, rxFin) && state != Closed && state != SynReceived
      modifies this`state, this`expireMs, this`sndUna, this`sndWnd, this`txSignal, this`rxSignal
      ensures Valid() && FinStates(state, rxFin) && state != Closed
      ensures Signals() == Also(old(Signals()), WakesOnAck(old(View()), s))
      ensures Tcp.OnAck(old(View()), s) == if closed then View().(state := Closed) else View()
    {
      hide W, Contents, SeqLe;
      closed := false;
      if SeqLe(s.ackNo, sndNxt) && SeqLe(sndUna, s.ackNo) {
        sndUna := s.ackNo;
        sndWnd := s.wnd;
        if sndUna == sndNxt {
          if state == FinWait1 {
            state := FinWait2;
          } else if state == Closing {
            EnterTimeWait(now);
          } else if state == LastAck {
            closed := true;
          }
        }
      }
      txSignal := true;
    }

    /** Consumes a FIN whose turn has come. */
    method TakeFin(s: Segment, now: nat)
      requires Valid() && FinStates(state, rxFin) && (state == Closed ==> rxFin)
      requires state != State.Listen && state != SynSent && state != SynReceived
      modifies this`state, this`expireMs, this`rcvNxt, this`rxFin, this`txSignal, this`rxSignal
      ensures Valid() && FinStates(state, rxFin) && (state == Closed <==> old(state) == Closed)
      ensures View() == Tcp.OnFin(old(View()), s)
      ensures Signals() == Also(old(Signals()), WakesOnFin(old(View()), s))
    {
      hide W, Contents, FinState;
      if s.flags.fin && W(s.seqNo + |s.data|) == rcvNxt && !rxFin {
        EndReceiving(now);
      }
    }

    method EndReceiving(now: nat)
      requires Valid() && FinStates(state, rxFin) && !rxFin && state != Closed
      requires state != State.Listen && state != SynSent && state != SynReceived
      modifies this`state, this`expireMs, this`rcvNxt, this`rxFin, this`txSignal, this`rxSignal
      ensures Valid() && FinStates(state, rxFin) && state != Closed && Signals() == BOTH
      ensures View() == old(View()).(rcvNxt := W(old(rcvNxt) + 1), rxFin := true, state := FinState(old(state)))
    {
      hide W, Contents, FinState;
      FinStateOk(state);
      rcvNxt := W(rcvNxt + 1);
      rxFin := true;
      AfterFin(now);
      txSignal := true;
      rxSignal := true;
    }

    method AfterFin(now: nat)
      requires Valid()
      modifies this`state, this`expireMs, this`txSignal, this`rxSignal
      ensures state == FinState(old(state))
    {
      hide Contents;
      if state == Established {
        state := CloseWait;
      } else if state == FinWait1 {
        state := Closing;
      } else if state == FinWait2 {
        EnterTimeWait(now);
      }
    }

    method StartFin() returns (fin: u32)
      requires Valid() && (state == Established || state == CloseWait) && FinStates(state, rxFin)
      modifies this`state, this`sndNxt, this`retries
      ensures Valid() && (View(), Some(fin)) == OnClose(old(View()))
      ensures state != Closed && FinStates(state, rxFin)
    {
      hide W, Contents, NegotiateMss;
      state := if state == Established then FinWait1 else LastAck;
      fin := sndNxt;
      sndNxt := W(sndNxt + 1);
      retries := 0;
    }

    /** One turn of the fill loop of send(): the arguments of the next send_segment call,
        or nothing when the loop stops. */
    method FillStep(data: seq<u8>, base: u32, end: u32) returns (r: Option<Request>, count: nat)
      requires Valid() && SendInv(View(), data, base, end)
      ensures r.None? <==> Tcp.FillStep(View(), end).Wait?
      ensures r.Some? ==>
        && Tcp.FillStep(View(), end) == Emit(count)
        && W(sndNxt - base) + count <= |data|
        && r.value == SendRequest(View(), data, base, end, count)
    {
      hide W, Contents, SeqLt, Tcp.FillStep, SendInv, InFlight;
      var step := NextChunk(end);
      if step.Wait? {
        return None, 0;
      }
      FillFits(View(), data, base, end);
      count := step.count;
      var last := W(sndNxt + count) == end;
      var off := W(sndNxt - base);
      r := Some(Request(if last then ACK_PSH else ACK, sndNxt, data[off..off + count]));
    }

    /** How much the loop sends next: what the window, the mss and the data allow, and one
        byte into a closed window when nothing is in flight. */
    method NextChunk(end: u32) returns (step: Fill)
      requires Valid()
      ensures step == Tcp.FillStep(View(), end)
    {
      hide W, Contents, SeqLt;
      if !SeqLt(sndNxt, end) {
        return Wait;
      }
      var inFlight := W(sndNxt - sndUna);
      var avail := if sndWnd > inFlight then sndWnd - inFlight else 0;
      if avail == 0 {
        if inFlight != 0 {
          return Wait;
        }
        avail := 1;
      }
      return Emit(Min(Min(avail, sndMss), W(end - sndNxt)));
    }

    /** After the await on the transmit event: count a timeout, or clear the count. */
    method OnWake(notified: bool) returns (ok: bool)
      requires Valid()
      modifies this`retries, this`sndNxt
      ensures Valid()
      ensures ok <==> Tcp.OnWake(old(View()), notified).Some?
      ensures ok ==> View() == Tcp.OnWake(old(View()), notified).value
    {
      if !notified {
        if sndWnd != 0 {
          retries := retries + 1;
          if retries > MAX_RETX {
            return false;
          }
        }
        sndNxt := sndUna;
      } else {
        retries := 0;
      }
      return true;
    }
  }

  // ----- the connection table

  class Stack {
    const conns: array<Conn?>
    var nowMs: nat
    ghost var all: set<Conn>

    /** A connection occupies exactly one slot if and only if it is not closed; bound ports
        are distinct; `rx_fin` holds exactly in the states after the peer's FIN. */
    ghost predicate Valid()
      reads this, conns, all
    {
      && conns.Length == TABLE_SIZE
      && (forall i :: 0 <= i < TABLE_SIZE && conns[i] != null ==> conns[i] in all)
      && (forall i, j :: 0 <= i < j < TABLE_SIZE && conns[i] != null ==> conns[i] != conns[j])
      && (forall c :: c in all ==> c.Valid() && (c in conns[..] <==> c.state != Closed) && FinStates(c.state, c.rxFin))
      && (forall c, d :: c in all && d in all && c != d ==> c.rxBuf != d.rxBuf)
      && (forall c, d :: c in all && d in all && c != d && c.state != Closed && d.state != Closed ==>
            c.localPort != d.localPort)
    }

    /** The part of `Valid` that does not depend on the fields of `c`. */
    ghost predicate RestOk(slots: seq<Conn?>, c: Conn)
      reads this, all - {c}
    {
      && |slots| == TABLE_SIZE
      && (forall i :: 0 <= i < TABLE_SIZE && slots[i] != null ==> slots[i] in all)
      && (forall i, j :: 0 <= i < j < TABLE_SIZE && slots[i] != null ==> slots[i] != slots[j])
      && (forall d :: d in all - {c} ==>
            d.Valid() && d.rxBuf != c.rxBuf && (d in slots <==> d.state != Closed) && FinStates(d.state, d.rxFin))
      && (forall d, e :: d in all - {c} && e in all - {c} && d != e ==> d.rxBuf != e.rxBuf)
      && (forall d, e :: d in all - {c} && e in all - {c} && d != e && d.state != Closed && e.state != Closed ==>
            d.localPort != e.localPort)
    }

    ghost predicate PortFree(c: Conn, port: u16)
      reads this, all - {c}
    {
      forall d :: d in all - {c} && d.state != Closed ==> d.localPort != port
    }

    ghost predicate SelfOk(slots: seq<Conn?>, c: Conn)
      reads this, all
    {
      c in all && c.Valid() && (c in slots <==> c.state != Closed) && FinStates(c.state, c.rxFin)
      && (c.state != Closed ==> PortFree(c, c.localPort))
    }

    lemma Split(c: Conn)
      requires c in all && conns.Length == TABLE_SIZE
      ensures Valid() <==> RestOk(conns[..], c) && SelfOk(conns[..], c)
    {
      if RestOk(conns[..], c) && SelfOk(conns[..], c) {
        assert forall i :: 0 <= i < TABLE_SIZE ==> conns[i] == conns[..][i];
        assert forall d :: d in all ==> d == c || d in all - {c};
      }
      if Valid() {
        assert forall i :: 0 <= i < TABLE_SIZE ==> conns[i] == conns[..][i];
      }
    }

    lemma Member(c: Conn)
      requires Valid() && c in all
      ensures c.Valid() && TcbOk(c.View())
    {}

    constructor (all: set<Conn>)
      requires forall c :: c in all ==> c.Valid() && c.state == Closed
      requires forall c, d :: c in all && d in all && c != d ==> c.rxBuf != d.rxBuf
      ensures Valid() && this.all == all && fresh(conns) && conns.Length == 4
    {
      conns := new Conn?[TABLE_SIZE](_ => null);
      nowMs := 0;
      this.all := all;
    }

    /** Takes the first free slot, unless the port is in use or the table is full. */
    method Bind(c: Conn) returns (ok: bool)
      requires conns.Length == TABLE_SIZE
      modifies conns
      ensures ok <==> null in old(conns[..])
                      && forall i :: 0 <= i < TABLE_SIZE && old(conns[i]) != null ==>
                         old(conns[i]).localPort != c.localPort
      ensures ok ==> exists k :: 0 <= k < TABLE_SIZE && old(conns[k]) == null
                                 && (forall j :: 0 <= j < k ==> old(conns[j]) != null)
                                 && conns[..] == old(conns[..])[k := c]
      ensures !ok ==> conns[..] == old(conns[..])
    {
      var free := -1;
      for i := 0 to conns.Length
        invariant -1 <= free < i
        invariant free == -1 <==> forall k :: 0 <= k < i ==> conns[k] != null
        invariant free != -1 ==> conns[free] == null && forall k :: 0 <= k < free ==> conns[k] != null
        invariant conns[..] == old(conns[..])
        invariant forall k :: 0 <= k < i && conns[k] != null ==> conns[k].localPort != c.localPort
      {
        if conns[i] == null {
          free := if free != -1 then free else i;
        } else if conns[i].localPort == c.localPort {
          return false;
        }
      }
      if free == -1 {
        return false;
      }
      assert old(conns[..])[free] == null;
      conns[free] := c;
      return true;
    }

    method Unbind(c: Conn)
      requires conns.Length == TABLE_SIZE
      modifies conns
      ensures forall i :: 0 <= i < TABLE_SIZE ==>
        conns[i] == if old(conns[i]) == c then null else old(conns[i])
    {
      for i := 0 to conns.Length
        invariant forall k :: 0 <= k < i ==> conns[k] == if old(conns[k]) == c then null else old(conns[k])
        invariant forall k :: i <= k < TABLE_SIZE ==> conns[k] == old(conns[k])
      {
        if conns[i] == c {
          conns[i] := null;
        }
      }
    }

    /** Emptying the slot of `c` leaves everything about the others in order. */
    lemma EmptiedSlot(slots: seq<Conn?>, c: Conn)
      requires RestOk(slots, c) && conns.Length == TABLE_SIZE
      requires forall i :: 0 <= i < TABLE_SIZE ==> conns[i] == if slots[i] == c then null else slots[i]
      ensures RestOk(conns[..], c) && c !in conns[..]
    {
      forall d | d in all - {c}
        ensures d in conns[..] <==> d in slots
      {
        if d in slots {
          var i :| 0 <= i < TABLE_SIZE && slots[i] == d;
          assert conns[..][i] == d;
        }
      }
    }

    /** Leaving Closed after a successful bind makes the table valid again. */
    lemma FilledSlot(slots: seq<Conn?>, c: Conn)
      requires RestOk(slots, c) && c !in slots && c in all && c.Valid() && conns.Length == TABLE_SIZE
      requires c.state != Closed && FinStates(c.state, c.rxFin)
      requires forall i :: 0 <= i < TABLE_SIZE && slots[i] != null ==> slots[i].localPort != c.localPort
      requires exists k :: 0 <= k < TABLE_SIZE && slots[k] == null && conns[..] == slots[k := c]
      ensures Valid()
    {
      var k :| 0 <= k < TABLE_SIZE && slots[k] == null && conns[..] == slots[k := c];
      assert conns[..][k] == c;
      forall d | d in all - {c}
        ensures d in conns[..] <==> d in slots
        ensures d.state != Closed ==> d.localPort != c.localPort
      {
        if d in slots {
          var i :| 0 <= i < TABLE_SIZE && slots[i] == d;
          assert conns[..][i] == d;
        }
      }
      Split(c);
    }

    /** Removing a connection that becomes closed keeps the table invariant. */
    method Release(c: Conn)
      requires Valid() && c in all
      modifies conns, c`state
      ensures Valid() && c.View() == old(c.View()).(state := Closed)
    {
      Split(c);
      hide Stack.Valid;
      ghost var slots := conns[..];
      Unbind(c);
      c.state := Closed;
      EmptiedSlot(slots, c);
      Split(c);
    }

    /** Frees the slot, closes, and wakes both directions. */
    method Reset(c: Conn)
      requires Valid() && c in all
      modifies conns, c`state, c`txSignal, c`rxSignal
      ensures Valid() && c.View() == old(c.View()).(state := Closed) && c.Signals() == BOTH
    {
      Release(c);
      Split(c);
      hide *;
      c.txSignal := true;
      c.rxSignal := true;
      Split(c);
    }

    /** No bound connection has the port, and a slot is free. */
    ghost predicate CanBind(port: u16)
      reads conns, set i | 0 <= i < conns.Length && conns[i] != null :: conns[i]
    {
      null in conns[..] && forall i :: 0 <= i < conns.Length && conns[i] != null ==> conns[i].localPort != port
    }

    method Listen(c: Conn, port: u16) returns (ok: bool)
      requires Valid() && c in all
      modifies conns, c
      ensures Valid() && (ok <==> old(c.state == Closed && CanBind(port)))
      ensures ok ==> c.View() == Blank(State.Listen) && c.localPort == port && c.Signals() == NOBODY
      ensures !ok ==> c.state == old(c.state)
    {
      Split(c);
      hide Stack.Valid, Stack.RestOk;
      if c.state != Closed {
        return false;
      }
      ghost var slots := conns[..];
      c.Prepare(port, 0, 0);
      ok := Bind(c);
      if ok {
        c.state := State.Listen;
        FilledSlot(slots, c);
      } else {
        Split(c);
      }
    }

    /** connect() up to its first await: bind, choose the initial sequence number. */
    method ConnectStart(c: Conn, addr: u32, port: u16, ephemeral: u16, iss: u32) returns (ok: bool)
      requires Valid() && c in all
      modifies conns, c
      ensures Valid() && (ok <==> old(c.state == Closed && CanBind(ephemeral)))
      ensures ok ==>
        && c.View() == Blank(SynSent).(sndUna := iss, sndNxt := W(iss + 1))
        && c.remoteAddr == addr && c.remotePort == port && c.localPort == ephemeral && c.Signals() == NOBODY
      ensures !ok ==> c.state == old(c.state)
    {
      Split(c);
      hide Stack.Valid, Stack.RestOk, W;
      if c.state != Closed {
        return false;
      }
      ghost var slots := conns[..];
      c.Prepare(ephemeral, port, addr);
      ok := Bind(c);
      if ok {
        c.StartSyn(iss, SynSent);
        FilledSlot(slots, c);
      } else {
        Split(c);
      }
    }

    /** Reaps time-wait connections whose linger has expired. */
    method Tick(now: nat)
      requires Valid()
      modifies conns, all
      ensures Valid()
      ensures forall c :: c in all ==>
        c.View() == if old(c.state) == TimeWait && now >= old(c.expireMs)
                    then old(c.View()).(state := Closed) else old(c.View())
    {
      hide Conn.Contents, FinStates;
      for i := 0 to conns.Length
        invariant Valid()
        invariant forall k :: 0 <= k < i ==>
          conns[k] == null || !(conns[k].state == TimeWait && now >= conns[k].expireMs)
        invariant forall c :: c in all ==> c.expireMs == old(c.expireMs)
        invariant forall c :: c in all ==>
          c.View() == old(c.View()) ||
          (old(c.state) == TimeWait && now >= old(c.expireMs) && c.View() == old(c.View()).(state := Closed))
      {
        if conns[i] != null && conns[i].state == TimeWait && now >= conns[i].expireMs {
          Reap(i, conns[i]);
        }
      }
      NoneExpired(now);
    }

    /** Every connection in time-wait has a slot. */
    lemma NoneExpired(now: nat)
      requires Valid()
      requires forall k :: 0 <= k < TABLE_SIZE ==> conns[k] == null || !(conns[k].state == TimeWait && now >= conns[k].expireMs)
      ensures forall c :: c in all && c.state == TimeWait ==> now < c.expireMs
    {
      forall c | c in all && c.state == TimeWait
        ensures now < c.expireMs
      {
        var k :| 0 <= k < TABLE_SIZE && conns[..][k] == c;
      }
    }

    method Reap(i: nat, c: Conn)
      requires Valid() && i < TABLE_SIZE && conns[i] == c
      modifies conns, c`state
      ensures Valid() && conns[i] == null
      ensures forall k :: 0 <= k < TABLE_SIZE && k != i ==> conns[k] == old(conns[k])
      ensures c.View() == old(c.View()).(state := Closed)
    {
      Split(c);
      ghost var slots := conns[..];
      assert forall k :: 0 <= k < TABLE_SIZE && k != i ==> slots[k] != c;
      hide Stack.Valid;
      c.state := Closed;
      conns[i] := null;
      EmptiedSlot(slots, c);
      Split(c);
    }

    /** First an exact match on port and peer, else the first listener on the port. */
    method Demux(src: u32, srcPort: u16, dstPort: u16) returns (r: Conn?)
      requires Valid()
      ensures r != null ==>
        && r in all && r.state != Closed && r.localPort == dstPort
        && (r.state == State.Listen || (r.remotePort == srcPort && r.remoteAddr == src))
      ensures r == null ==> forall c :: c in all && c.state != Closed && c.localPort == dstPort ==>
        c.state != State.Listen && !(c.remotePort == srcPort && c.remoteAddr == src)
    {
      var listener: Conn? := null;
      r := null;
      var i := 0;
      while i < conns.Length && r == null
        invariant 0 <= i <= conns.Length
        invariant listener != null ==> listener in all && listener.state == State.Listen && listener.localPort == dstPort
        invariant r != null ==> r in all && r.state != State.Listen && r.state != Closed && r.localPort == dstPort
                                && r.remotePort == srcPort && r.remoteAddr == src
        invariant r == null && listener == null ==> forall k :: 0 <= k < i && conns[k] != null && conns[k].localPort == dstPort ==>
          conns[k].state != State.Listen && !(conns[k].remotePort == srcPort && conns[k].remoteAddr == src)
      {
        var slot := conns[i];
        if slot != null && slot.localPort == dstPort {
          assert slot in conns[..];
          if slot.state == State.Listen {
            listener := if listener != null then listener else slot;
          } else if slot.remotePort == srcPort && slot.remoteAddr == src {
            r := slot;
          }
        }
        i := i + 1;
      }
      r := if r != null then r else listener;
      forall c | c in all && c.state != Closed && c.localPort == dstPort
        ensures r == null ==> c.state != State.Listen && !(c.remotePort == srcPort && c.remoteAddr == src)
      {
        var k :| 0 <= k < TABLE_SIZE && conns[..][k] == c;
      }
    }

    /** Ack processing; the last acknowledgment of a passive close frees the slot. */
    method OnAck(c: Conn, s: Segment)
      requires Valid() && c in all && c.state != Closed && c.state != SynReceived
      modifies conns, c`state, c`expireMs, c`sndUna, c`sndWnd, c`txSignal, c`rxSignal
      ensures Valid() && c.View() == Tcp.OnAck(old(c.View()), s)
      ensures c.Signals() == Also(old(c.Signals()), WakesOnAck(old(c.View()), s))
    {
      Split(c);
      hide Stack.Valid, Stack.RestOk, W, Conn.Contents, Stack.PortFree;
      var closed := c.TakeAck(s, nowMs);
      Split(c);
      if closed {
        Release(c);
      }
    }

    /** A FIN counts once every byte before it has been received. */
    method OnFin(c: Conn, s: Segment)
      requires Valid() && c in all && (c.state == Closed ==> c.rxFin)
      requires c.state != State.Listen && c.state != SynSent && c.state != SynReceived
      modifies c`state, c`expireMs, c`rcvNxt, c`rxFin, c`txSignal, c`rxSignal
      ensures Valid() && c.View() == Tcp.OnFin(old(c.View()), s)
      ensures c.Signals() == Also(old(c.Signals()), WakesOnFin(old(c.View()), s))
    {
      Split(c);
      hide Stack.Valid, Stack.RestOk, W, Conn.Contents, Stack.PortFree;
      c.TakeFin(s, nowMs);
      Split(c);
    }

    /** close() up to its loop. */
    method CloseStart(c: Conn) returns (fin: Option<u32>)
      requires Valid() && c in all
      modifies conns, c`state, c`sndNxt, c`retries
      ensures Valid() && (c.View(), fin) == OnClose(old(c.View()))
    {
      Split(c);
      hide Stack.Valid, Stack.RestOk, W, Conn.Contents, Stack.PortFree;
      fin := None;
      if c.state == Established || c.state == CloseWait {
        var f := c.StartFin();
        fin := Some(f);
        Split(c);
      } else if c.state == State.Listen || c.state == SynSent {
        Split(c);
        Release(c);
      } else {
        Split(c);
      }
    }

    method OnData(c: Conn, s: Segment)
      requires Valid() && c in all
      modifies c`rxLen, c`rcvNxt, c`rxSignal, c.rxBuf
      ensures Valid() && c.View() == Tcp.OnData(old(c.View()), s)
      ensures c.Signals() == Also(old(c.Signals()), WakesOnData(old(c.View()), s))
    {
      Split(c);
      hide *;
      c.OnData(s);
      Split(c);
    }

    /** input() for a segment addressed to `c`: reply and resets as requested calls, and
        whether `Connected` follows the reply. */
    method Input(c: Conn, src: u32, srcPort: u16, s: Segment, iss: u32)
      returns (reply: seq<Request>, rst: seq<Segment>, connected: bool)
      requires Valid() && c in all && c.state != Closed
      modifies conns, c, c.rxBuf
      ensures Valid() && c.localPort == old(c.localPort)
      ensures Outcome(c.View(), reply, rst) == OnSegment(old(c.View()), s, iss)
      ensures c.Signals() == Also(old(c.Signals()), WakesOf(old(c.View()), s))
      ensures connected == WakesAfterReply(old(c.View()), s)
      ensures old(c.state) == State.Listen && c.state == SynReceived ==> c.remoteAddr == src && c.remotePort == srcPort
      ensures old(c.state) != State.Listen ==> c.remoteAddr == old(c.remoteAddr) && c.remotePort == old(c.remotePort)
    {
      Split(c);
      hide Stack.Valid, Stack.RestOk, W, Conn.Contents;
      reply, rst, connected := [], [], false;
      if c.state == State.Listen {
        reply, rst := InputListen(c, src, srcPort, s, iss);
      } else if c.state == SynSent {
        reply, rst, connected := InputSynSent(c, s);
      } else {
        reply, rst := InputSynchronized(c, s);
      }
    }

    method InputListen(c: Conn, src: u32, srcPort: u16, s: Segment, iss: u32)
      returns (reply: seq<Request>, rst: seq<Segment>)
      requires Valid() && c in all && c.state == State.Listen
      modifies c
      ensures Valid() && c.localPort == old(c.localPort)
      ensures Outcome(c.View(), reply, rst) == OnListen(old(c.View()), s, iss) && c.Signals() == old(c.Signals())
      ensures if c.state == SynReceived then c.remoteAddr == src && c.remotePort == srcPort
              else c.remoteAddr == old(c.remoteAddr) && c.remotePort == old(c.remotePort)
    {
      Split(c);
      hide Stack.Valid, Stack.RestOk, W, Conn.Contents;
      reply, rst := [], [];
      if s.flags.rst { return; }
      if s.flags.ack { rst := RstFor(s); return; }
      if !s.flags.syn { return; }
      reply := c.AcceptSyn(src, srcPort, s, iss);
      Split(c);
    }

    method InputSynSent(c: Conn, s: Segment) returns (reply: seq<Request>, rst: seq<Segment>, connected: bool)
      requires Valid() && c in all && c.state == SynSent
      modifies conns, c
      ensures Valid() && c.localPort == old(c.localPort)
      ensures Outcome(c.View(), reply, rst) == OnSynSent(old(c.View()), s)
      ensures c.Signals() == Also(old(c.Signals()), WakesOnSynSent(old(c.View()), s))
      ensures connected == WakesAfterReply(old(c.View()), s)
      ensures c.remoteAddr == old(c.remoteAddr) && c.remotePort == old(c.remotePort)
    {
      hide Stack.Valid, W, Conn.Contents, SeqLt, SeqLe, RstFor;
      Member(c);
      reply, rst, connected := [], [], false;
      var ackOk := SeqLt(c.sndUna, s.ackNo) && SeqLe(s.ackNo, c.sndNxt);
      if s.flags.ack && !ackOk { rst := RstFor(s); return; }
      if s.flags.rst {
        if s.flags.ack { Reset(c); }
        return;
      }
      if !s.flags.syn || !s.flags.ack { return; }
      reply := InputSynAck(c, s);
      connected := true;
    }

    /** An active open is completed. */
    method InputSynAck(c: Conn, s: Segment) returns (reply: seq<Request>)
      requires Valid() && c in all && c.state == SynSent && s.flags.syn && s.flags.ack && !s.flags.rst
      requires SeqLt(c.sndUna, s.ackNo) && SeqLe(s.ackNo, c.sndNxt)
      modifies c
      ensures Valid() && c.localPort == old(c.localPort) && c.Signals() == old(c.Signals())
      ensures Outcome(c.View(), reply, []) == OnSynSent(old(c.View()), s) && c.state == Established
      ensures c.remoteAddr == old(c.remoteAddr) && c.remotePort == old(c.remotePort)
    {
      Split(c);
      hide Stack.Valid, Stack.RestOk, W, Conn.Contents, SeqLt, SeqLe, RstFor;
      reply := c.AcceptSynAck(s);
      Split(c);
    }

    method InputSynchronized(c: Conn, s: Segment) returns (reply: seq<Request>, rst: seq<Segment>)
      requires Valid() && c in all && c.state != Closed && c.state != State.Listen && c.state != SynSent
      modifies conns, c`state, c`expireMs, c`sndUna, c`sndWnd, c`rcvNxt, c`rxFin, c`rxLen,
        c`txSignal, c`rxSignal, c.rxBuf
      ensures Valid()
      ensures Outcome(c.View(), reply, rst) == OnSynchronized(old(c.View()), s)
      ensures c.Signals() == Also(old(c.Signals()), WakesOnSynchronized(old(c.View()), s))
    {
      hide Stack.Valid, W, Conn.Contents, Tcp.Accept, WakesOnAccept, SeqLe, SeqLt, AckInRange, RstFor;
      Member(c);
      reply, rst := [], [];
      if s.flags.rst {
        if s.seqNo == c.rcvNxt || c.state == SynReceived { Reset(c); }
        return;
      }
      if c.state == SynReceived && s.flags.syn && W(s.seqNo + 1) == c.rcvNxt {
        reply := [Request(SYN_ACK, c.sndUna, [])];
        return;
      }
      if s.flags.syn && SeqLe(c.rcvNxt, s.seqNo) {
        Reset(c);
        return;
      }
      if !s.flags.ack { return; }
      reply, rst := InputAcked(c, s);
    }

    /** A segment with an acknowledgment; the first one in range completes a passive open. */
    method InputAcked(c: Conn, s: Segment) returns (reply: seq<Request>, rst: seq<Segment>)
      requires Valid() && c in all && c.state != Closed && c.state != State.Listen && c.state != SynSent
      modifies conns, c`state, c`expireMs, c`sndUna, c`sndWnd, c`rcvNxt, c`rxFin, c`rxLen,
        c`txSignal, c`rxSignal, c.rxBuf
      ensures Valid()
      ensures var t := old(c.View());
              Outcome(c.View(), reply, rst) ==
              if t.state == SynReceived && !AckInRange(t, s.ackNo) then Outcome(t, [], RstFor(s)) else Tcp.Accept(t, s)
      ensures var t := old(c.View());
              c.Signals() == Also(old(c.Signals()), if t.state == SynReceived && !AckInRange(t, s.ackNo) then NOBODY
                                                    else WakesOnAccept(t, s))
    {
      hide Stack.Valid, W, Conn.Contents, Tcp.Accept, WakesOnAccept, SeqLe, RstFor;
      Member(c);
      reply, rst := [], [];
      if c.state == SynReceived {
        if !(SeqLe(c.sndUna, s.ackNo) && SeqLe(s.ackNo, c.sndNxt)) {
          rst := RstFor(s);
          return;
        }
        AcceptFrom(c.View(), s);
        Establish(c);
      }
      reply := ProcessAccepted(c, s);
    }

    /** A passive open is complete. */
    method Establish(c: Conn)
      requires Valid() && c in all && c.state == SynReceived
      modifies c`state
      ensures Valid() && c.View() == old(c.View()).(state := Established)
    {
      Split(c);
      hide Stack.Valid, Stack.RestOk, Stack.PortFree, Conn.Contents;
      c.state := Established;
      Split(c);
    }

    /** Ack, in-order data, fin, and the acknowledgment that answers them. */
    method ProcessAccepted(c: Conn, s: Segment) returns (reply: seq<Request>)
      requires Valid() && c in all && c.state != Closed
      requires c.state != State.Listen && c.state != SynSent && c.state != SynReceived
      modifies conns, c`state, c`expireMs, c`sndUna, c`sndWnd, c`rcvNxt, c`rxFin, c`rxLen,
        c`txSignal, c`rxSignal, c.rxBuf
      ensures Valid()
      ensures Outcome(c.View(), reply, []) == Tcp.Accept(old(c.View()), s)
      ensures c.Signals() == Also(old(c.Signals()), WakesOnAccept(old(c.View()), s))
    {
      Split(c);
      hide Stack.Valid, Stack.RestOk, W, Conn.Contents, Tcp.Fresh;
      OnAck(c, s);
      var prev := c.rcvNxt;
      OnData(c, s);
      OnFin(c, s);
      reply := [];
      if c.rcvNxt != prev || |s.data| != 0 || s.flags.fin {
        reply := [Request(ACK, c.sndNxt, [])];
      }
    }
  }
}
