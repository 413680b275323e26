/** One run, so that the guarantees about all runs are seen to be about something: a
    connection is opened across the wrap of the sequence space and a byte is delivered and
    acknowledged. */
module TcpExample {
  import opened Words
  import opened Tcp
  import opened TcpRun

  /** The initial sequence number is the last one before the wrap: the byte has number 0. */
  const ISS: u32 := 0xffff_ffff

  const SYN_CALL := Call(Request(SYN, ISS, []), 0)
  const SYN_PACKET := Packet(Segment(SYN, ISS, 0, 2048, 1460, []), 0, 0)
  const SYN_ACK_CALL := Call(Request(SYN_ACK, 5, []), 0)
  const SYN_ACK_PACKET := Packet(Segment(SYN_ACK, 5, 0, 2048, 1460, []), 0, 1)
  const ACK_CALL := Call(Request(ACK, 0, []), 1)
  const ACK_PACKET := Packet(Segment(ACK, 0, 6, 2048, 0, []), 1, 1)
  const DATA_CALL := Call(Request(ACK_PSH, 0, [7]), 1)
  const DATA_PACKET := Packet(Segment(ACK_PSH, 0, 6, 2048, 0, [7]), 1, 1)
  const REPLY_CALL := Call(Request(ACK, 6, []), 1)
  const REPLY_PACKET := Packet(Segment(ACK, 6, 1, 2047, 0, []), 1, 2)

  const ARRIVAL := Event(true, Deliver(DATA_PACKET, 0))

  /** The event happens at least twice. */
  predicate Twice(events: seq<Event>, v: Event) {
    exists i, j :: 0 <= i < j < |events| && events[i] == events[j] == v
  }

  function Tcb0(state: State, una: u32, nxt: u32, rcv: u32, rx: seq<u8>): Tcb {
    Tcb(state, una, nxt, 2048, 1460, 0, rcv, rx, false, false)
  }

  /** The server has answered the SYN. */
  const OPENING: System := System(
    End(Tcb0(SynReceived, 5, 6, 0, []), Origin(true, true, 5, [], -1),
        0, 1, 1, [], false, 0, false, false, Idle, {SYN_ACK_CALL}),
    End(Tcb(SynSent, ISS, 0, 0, 536, 0, 0, [], false, false), Origin(true, false, ISS, [], -1),
        0, 1, 0, [], false, 0, false, false, SynWaiting(0), {SYN_CALL}),
    {}, {SYN_PACKET})

  const OPEN_CLIENT: End :=
    End(Tcb0(Established, 0, 0, 6, []), Origin(true, true, ISS, [], -1),
        1, 1, 1, [], false, 0, false, false, SynWaiting(0), {SYN_CALL, ACK_CALL})

  /** The connection is open. */
  const OPEN: System := System(
    End(Tcb0(Established, 6, 6, 0, []), Origin(true, true, 5, [], -1),
        1, 1, 1, [], false, 0, false, false, Idle, {SYN_ACK_CALL}),
    End(Tcb0(Established, 0, 0, 6, []), Origin(true, true, ISS, [], -1),
        1, 1, 1, [], false, 0, false, false, Idle, {SYN_CALL, ACK_CALL}),
    {SYN_ACK_PACKET}, {SYN_PACKET, ACK_PACKET})

  const SENDING: End :=
    End(Tcb0(Established, 0, 1, 6, []), Origin(true, true, ISS, [7], -1),
        1, 2, 1, [], false, 0, false, false, SendWaiting([7], 0, 1), {SYN_CALL, ACK_CALL, DATA_CALL})

  /** The byte is in the server's ring. */
  const SENT: System := System(
    End(Tcb0(Established, 6, 6, 1, [7]), Origin(true, true, 5, [], -1),
        1, 1, 2, [], false, 0, false, false, Idle, {SYN_ACK_CALL, REPLY_CALL}),
    End(Tcb0(Established, 0, 1, 6, []), Origin(true, true, ISS, [7], -1),
        1, 2, 1, [], false, 0, false, false, SendWaiting([7], 0, 1), {SYN_CALL, ACK_CALL, DATA_CALL}),
    {SYN_ACK_PACKET}, {SYN_PACKET, ACK_PACKET, DATA_PACKET})

  /** One more event. */
  function Then(s: System, atA: bool, act: Action): System
    requires Possible(s, Event(atA, act))
  {
    After(s, Event(atA, act))
  }

  lemma Extend(run: seq<System>, events: seq<Event>, atA: bool, act: Action) returns (run': seq<System>, events': seq<Event>)
    requires IsRun(run, events) && Possible(run[|events|], Event(atA, act))
    ensures IsRun(run', events') && run'[|events'|] == Then(run[|events|], atA, act)
    ensures events' == events + [Event(atA, act)]
  {
    hide Next, Enabled, After, Possible, TcbOk, W;
    run', events' := run + [Then(run[|events|], atA, act)], events + [Event(atA, act)];
  }

  lemma Opening() returns (run: seq<System>, events: seq<Event>)
    ensures IsRun(run, events) && run[|events|] == OPENING
  {
    run, events := [START], [];
    assert IsRun(run, events);
    hide IsRun;
    run, events := Extend(run, events, true, Action.Listen);
    run, events := Extend(run, events, false, Connect(ISS));
    run, events := Extend(run, events, false, Transmit(SYN_CALL));
    run, events := Extend(run, events, false, Resume(true));
    run, events := Extend(run, events, true, Deliver(SYN_PACKET, 5));
  }

  lemma OpenClient(run0: seq<System>, events0: seq<Event>) returns (run: seq<System>, events: seq<Event>)
    requires IsRun(run0, events0) && run0[|events0|] == OPENING
    ensures IsRun(run, events)
    ensures run[|events|] == System(OPENING.a, OPEN_CLIENT, {SYN_ACK_PACKET}, {SYN_PACKET, ACK_PACKET})
  {
    hide IsRun;
    run, events := Extend(run0, events0, true, Transmit(SYN_ACK_CALL));
    run, events := Extend(run, events, false, Deliver(SYN_ACK_PACKET, 0));
    run, events := Extend(run, events, false, Transmit(ACK_CALL));
  }

  lemma Open(run0: seq<System>, events0: seq<Event>) returns (run: seq<System>, events: seq<Event>)
    requires IsRun(run0, events0)
    requires run0[|events0|] == System(OPENING.a, OPEN_CLIENT, {SYN_ACK_PACKET}, {SYN_PACKET, ACK_PACKET})
    ensures IsRun(run, events) && run[|events|] == OPEN
  {
    hide IsRun;
    run, events := Extend(run0, events0, false, Wake(true));
    run, events := Extend(run, events, true, Deliver(ACK_PACKET, 0));
  }

  /** One byte to send, with nothing in flight and room in the window. */
  lemma FillByte(e: End, data: seq<u8>)
    requires |data| == 1 && e.t.sndUna == e.t.sndNxt == 0 && e.t.sndWnd == 2048 && e.t.sndMss == 1460
    ensures FillTop(e, data, 0, 1) == e.(calls := e.calls + {Call(Request(ACK_PSH, 0, data), e.nxt)}, tx := Sending(data, 0, 1, 1))
    ensures SendTop(e, data, 0, 1) == if Sendable(e.t.state) then FillTop(e, data, 0, 1) else e.(tx := Idle, gaveUp := true)
  {
    assert SeqLt(0, 1) && W(0) == 0 && W(1) == 1;
    hide W, SeqLt;
    assert FillStep(e.t, 1) == Emit(1);
    assert data[0..1] == data;
  }

  const TAKEN: End :=
    End(Tcb0(Established, 0, 0, 6, []), Origin(true, true, ISS, [7], -1),
        1, 1, 1, [], false, 0, false, false, Sending([7], 0, 1, 1), {SYN_CALL, ACK_CALL, DATA_CALL})

  lemma FirstTaken()
    ensures StartSend(OPEN.b, [7]) == TAKEN
  {
    FillByte(Started(OPEN.b, [7]), [7]);
    hide SendTop, FillTop;
    var data: seq<u8> := [7];
    assert [] + data == data;
  }

  lemma SendByte(run0: seq<System>, events0: seq<Event>) returns (run: seq<System>, events: seq<Event>)
    requires IsRun(run0, events0) && run0[|events0|] == OPEN
    ensures IsRun(run, events)
    ensures run[|events|] == System(OPEN.a, SENDING, {SYN_ACK_PACKET}, {SYN_PACKET, ACK_PACKET, DATA_PACKET})
  {
    hide IsRun;
    FirstTaken();
    hide StartSend;
    run, events := Extend(run0, events0, false, Action.Send([7]));
    run, events := Extend(run, events, false, Transmit(DATA_CALL));
    run, events := Extend(run, events, false, Resume(true));
  }

  /** The byte whose turn it is goes into the ring and is acknowledged. */
  lemma NewByte(t: Tcb, s: Segment)
    requires TcbOk(t) && t.state == Established && t.sndUna == t.sndNxt == s.ackNo && t.sndWnd == s.wnd
    requires s.flags == ACK_PSH && |s.data| == 1 && s.seqNo == t.rcvNxt == 0 && t.rx == []
    ensures OnSegment(t, s, 0) == Outcome(t.(rx := s.data, rcvNxt := 1), [Request(ACK, t.sndNxt, [])], [])
  {
    assert W(1) == 1;
    assert s.data[..1] == s.data && t.rx + s.data == s.data;
    assert OnAck(t, s) == t && OnData(t, s) == t.(rx := s.data, rcvNxt := 1);
  }

  lemma FirstArrives()
    ensures OnDeliver(OPEN.a, DATA_PACKET.s, 0) == (SENT.a, {})
  {
    NewByte(OPEN.a.t, DATA_PACKET.s);
    assert OnSegment(OPEN.a.t, DATA_PACKET.s, 0).t == SENT.a.t;
    hide OnSegment;
    assert OPEN.a.calls + {REPLY_CALL} == SENT.a.calls;
  }

  lemma Arrive(run0: seq<System>, events0: seq<Event>) returns (run: seq<System>, events: seq<Event>)
    requires IsRun(run0, events0)
    requires run0[|events0|] == System(OPEN.a, SENDING, {SYN_ACK_PACKET}, {SYN_PACKET, ACK_PACKET, DATA_PACKET})
    ensures IsRun(run, events) && run[|events|] == SENT && events == events0 + [ARRIVAL]
  {
    hide IsRun;
    FirstArrives();
    hide OnDeliver;
    run, events := Extend(run0, events0, true, Deliver(DATA_PACKET, 0));
  }

  /** The server after recv(). */
  const READ: End :=
    End(Tcb0(Established, 6, 6, 1, []), Origin(true, true, 5, [], -1),
        1, 1, 2, [7], false, 0, false, false, Idle, {SYN_ACK_CALL, REPLY_CALL})

  /** A byte received before changes nothing but is acknowledged again. */
  lemma OldByte(e: End, s: Segment)
    requires TcbOk(e.t) && e.t.state == Established && REPLY_CALL in e.calls && e.nxt == 1
    requires e.t.sndUna == e.t.sndNxt == 6 && e.t.rcvNxt == 1 && e.t.sndWnd == 2048
    requires s.flags == ACK_PSH && s.seqNo == 0 && s.ackNo == 6 && s.wnd == 2048 && |s.data| == 1
    ensures OnDeliver(e, s, 0) == (e, {})
  {
    assert SeqLt(0, 1) && W(1 - 0) == 1;
    assert Tcp.Fresh(e.t, s) == [];
    OldSegment(e.t, s);
    hide OnSegment;
    assert Track(e, e.t) == e;
    assert e.calls + {REPLY_CALL} == e.calls;
  }

  lemma OldSegment(t: Tcb, s: Segment)
    requires TcbOk(t) && t.state == Established && t.sndUna == t.sndNxt == s.ackNo && t.sndWnd == s.wnd
    requires Tcp.Fresh(t, s) == [] && s.flags == ACK_PSH && |s.data| == 1
    ensures OnSegment(t, s, 0) == Outcome(t, [Request(ACK, t.sndNxt, [])], [])
  {
    hide Tcp.Fresh;
    assert W(t.rcvNxt as int) == t.rcvNxt;
    assert t.rx + [] == t.rx;
    assert OnAck(t, s) == t && OnData(t, s) == t && OnFin(t, s) == t;
  }

  lemma ReadByte(run0: seq<System>, events0: seq<Event>) returns (run: seq<System>, events: seq<Event>)
    requires IsRun(run0, events0) && run0[|events0|] == SENT
    ensures IsRun(run, events) && run[|events|] == System(READ, SENDING, {SYN_ACK_PACKET, REPLY_PACKET}, SENT.ba)
    ensures events0 <= events
  {
    hide IsRun;
    run, events := Extend(run0, events0, true, Transmit(REPLY_CALL));
    run, events := Extend(run, events, true, Recv(10));
  }

  lemma Receive(run0: seq<System>, events0: seq<Event>) returns (run: seq<System>, events: seq<Event>)
    requires IsRun(run0, events0) && run0[|events0|] == SENT
    ensures IsRun(run, events) && run[|events|].a.got == [7]
    ensures run[|events|].b == SENDING && run[|events|].ab == {SYN_ACK_PACKET, REPLY_PACKET}
    ensures TcbOk(run[|events|].a.t) && |events| > |events0| && events[..|events0|] == events0 && events[|events| - 1] == ARRIVAL
  {
    hide IsRun;
    run, events := ReadByte(run0, events0);
    OldByte(READ, DATA_PACKET.s);
    hide OnDeliver;
    run, events := Extend(run, events, true, Deliver(DATA_PACKET, 0));
  }

  lemma Confirm(run0: seq<System>, events0: seq<Event>) returns (run: seq<System>, events: seq<Event>)
    requires IsRun(run0, events0) && run0[|events0|].b == SENDING && TcbOk(run0[|events0|].a.t)
    requires run0[|events0|].ab == {SYN_ACK_PACKET, REPLY_PACKET}
    ensures IsRun(run, events) && run[|events|].a == run0[|events0|].a && events0 <= events
    ensures var b := run[|events|].b; b.o.stream == [7] && b.o.iss == ISS && b.acked == 1 && b.tx == Idle
  {
    hide IsRun;
    run, events := Extend(run0, events0, false, Deliver(REPLY_PACKET, 0));
    run, events := Extend(run, events, false, Wake(true));
  }

  /** A connection whose sequence numbers wrap between the SYN and the data delivers a byte:
      its segment arrives twice, recv() returned it once, and send() reported success. */
  lemma ByteDelivered() returns (run: seq<System>, events: seq<Event>)
    ensures IsRun(run, events) && Twice(events, ARRIVAL)
    ensures var s := run[|events|];
            && s.a.got == [7] && s.b.o.stream == [7] && s.b.acked == 1 && s.b.tx == Idle
            && s.b.o.iss == 0xffff_ffff && ARRIVAL.act.p.s.seqNo == 0 && ARRIVAL.act.p.s.data == [7]
  {
    hide IsRun;
    run, events := Opening();
    run, events := OpenClient(run, events);
    run, events := Open(run, events);
    run, events := SendByte(run, events);
    run, events := Arrive(run, events);
    var first := |events| - 1;
    run, events := Receive(run, events);
    var second := |events| - 1;
    assert events[first] == events[..first + 1][first];
    run, events := Confirm(run, events);
    assert events[first] == events[second] == ARRIVAL;
  }

  // ----- a send() too many

  const GAVE_UP: End :=
    End(Tcb(Established, 0, 0, 2048, 1460, 1, 6, [], false, false), Origin(true, true, ISS, [7], -1),
        1, 1, 1, [], true, 0, false, false, Idle, {SYN_CALL, ACK_CALL, DATA_CALL})

  const SECOND_CALL := Call(Request(ACK_PSH, 0, [8]), 1)
  const SECOND_PACKET := Packet(Segment(ACK_PSH, 0, 6, 2048, 0, [8]), 1, 1)

  const SECOND_SENT: End :=
    End(Tcb0(Established, 0, 1, 6, []), Origin(true, true, ISS, [7, 8], -1),
        1, 2, 1, [], false, 0, false, false, SendWaiting([8], 0, 1), {SYN_CALL, ACK_CALL, DATA_CALL, SECOND_CALL})

  /** Steps of the system, from whatever state the first one is. */
  predicate Continues(run: seq<System>, events: seq<Event>) {
    && |run| == |events| + 1
    && forall i :: 0 <= i < |events| ==> Possible(run[i], events[i]) && run[i + 1] == After(run[i], events[i])
  }

  lemma Continue(run: seq<System>, events: seq<Event>, atA: bool, act: Action) returns (run': seq<System>, events': seq<Event>)
    requires Continues(run, events) && Possible(run[|events|], Event(atA, act))
    ensures Continues(run', events') && run'[|events'|] == Then(run[|events|], atA, act) && run'[0] == run[0]
    ensures events' == events + [Event(atA, act)]
  {
    hide Next, Enabled, After, Possible, TcbOk, W;
    run', events' := run + [Then(run[|events|], atA, act)], events + [Event(atA, act)];
  }

  /** The retransmission after a timeout. */
  const AGAIN: End :=
    End(Tcb(Established, 0, 0, 2048, 1460, 1, 6, [], false, false), Origin(true, true, ISS, [7], -1),
        1, 1, 1, [], false, 0, false, false, Sending([7], 0, 1, 1), {SYN_CALL, ACK_CALL, DATA_CALL})

  lemma TimedOut()
    ensures OnEvent(SENDING, false) == AGAIN
  {
    var e := Woken(SENDING, SENDING.t.(retries := 1, sndNxt := 0), false);
    assert OnWake(SENDING.t, false) == Some(e.t);
    FillByte(e, [7]);
    hide SendTop, FillTop;
  }

  lemma GivesUp()
    ensures OnResume(AGAIN, false) == GAVE_UP
  {}

  /** The byte arrives, its acknowledgment does not come in time, and the retransmission
      fails: send() ends with nothing in flight. */
  lemma GiveUp() returns (run: seq<System>, events: seq<Event>)
    ensures IsRun(run, events) && run[|events|] == SENT.(b := GAVE_UP)
  {
    hide IsRun;
    run, events := Opening();
    run, events := OpenClient(run, events);
    run, events := Open(run, events);
    run, events := SendByte(run, events);
    run, events := Arrive(run, events);
    TimedOut();
    GivesUp();
    hide OnEvent, OnResume;
    run, events := Extend(run, events, false, Wake(false));
    run, events := Extend(run, events, false, Resume(false));
  }

  const SECOND_TAKEN: End :=
    End(Tcb0(Established, 0, 0, 6, []), Origin(true, true, ISS, [7, 8], -1),
        1, 1, 1, [], false, 0, false, false, Sending([8], 0, 1, 1), {SYN_CALL, ACK_CALL, DATA_CALL, SECOND_CALL})

  lemma SecondTaken()
    ensures StartSend(GAVE_UP, [8]) == SECOND_TAKEN
  {
    FillByte(Started(GAVE_UP, [8]), [8]);
    hide SendTop, FillTop;
    var data: seq<u8> := [8];
    var both: seq<u8> := [7, 8];
    assert GAVE_UP.o.stream + data == both;
  }

  /** The second byte goes out with the number of the first. */
  lemma SendSecond() returns (run: seq<System>, events: seq<Event>)
    ensures Continues(run, events) && run[0] == SENT.(b := StartSend(GAVE_UP, [8]))
    ensures run[|events|] == System(SENT.a, SECOND_SENT, SENT.ab, SENT.ba + {SECOND_PACKET})
  {
    hide StartSend;
    SecondTaken();
    run, events := [SENT.(b := SECOND_TAKEN)], [];
    assert Continues(run, events);
    hide Continues;
    run, events := Continue(run, events, false, Transmit(SECOND_CALL));
    run, events := Continue(run, events, false, Resume(true));
  }

  /** Why another send() has to wait until a failed one is acknowledged after all: with the
      first byte in the peer's ring and nothing in flight, a second byte is taken for the
      first one and dropped, and send() reports both as sent. */
  lemma ByteLost() returns (run: seq<System>, events: seq<Event>, later: seq<System>, more: seq<Event>)
    ensures IsRun(run, events)
    ensures var s := run[|events|];
            && s.b.gaveUp && s.b.tx == Idle && s.b.t.sndUna == s.b.t.sndNxt && !AllSent(s.b) && Arrived(s.a) == [7]
            && Continues(later, more) && later[0] == s.(b := StartSend(s.b, [8]))
    ensures Event(true, Deliver(SECOND_PACKET, 0)) in more
    ensures var s := later[|more|];
            s.b.tx == Idle && s.b.o.stream == [7, 8] && s.b.acked == 2 && Arrived(s.a) == [7]
  {
    hide IsRun, Continues, After, Possible;
    run, events := GiveUp();
    later, more := SendSecond();
    later, more := DropSecond(later, more);
    assert more[|more| - 1] == Event(true, Deliver(SECOND_PACKET, 0));
    later, more := AnswerFirst(later, more);
    later, more := TakeAnswer(later, more);
    later, more := ReportSecond(later, more);
  }

  const ACKED: System := System(SENT.a, SECOND_SENT, {SYN_ACK_PACKET, REPLY_PACKET}, SENT.ba + {SECOND_PACKET})

  /** The peer's ring is as before: the byte has an old number. */
  lemma DropSecond(run0: seq<System>, events0: seq<Event>) returns (run: seq<System>, events: seq<Event>)
    requires Continues(run0, events0)
    requires run0[|events0|] == System(SENT.a, SECOND_SENT, SENT.ab, SENT.ba + {SECOND_PACKET})
    ensures Continues(run, events) && run[0] == run0[0] && events == events0 + [Event(true, Deliver(SECOND_PACKET, 0))]
    ensures run[|events|] == run0[|events0|]
  {
    hide Continues;
    OldByte(SENT.a, SECOND_PACKET.s);
    hide OnDeliver;
    run, events := Continue(run0, events0, true, Deliver(SECOND_PACKET, 0));
  }

  lemma AnswerFirst(run0: seq<System>, events0: seq<Event>) returns (run: seq<System>, events: seq<Event>)
    requires Continues(run0, events0)
    requires run0[|events0|] == System(SENT.a, SECOND_SENT, SENT.ab, SENT.ba + {SECOND_PACKET})
    ensures Continues(run, events) && run[0] == run0[0] && events0 <= events && run[|events|] == ACKED
  {
    hide Continues;
    run, events := Continue(run0, events0, true, Transmit(REPLY_CALL));
    assert SENT.ab + {REPLY_PACKET} == ACKED.ab;
  }

  /** The sender after that acknowledgment. */
  const ANSWERED: End :=
    End(Tcb(Established, 1, 1, 2047, 1460, 0, 6, [], false, false), Origin(true, true, ISS, [7, 8], -1),
        2, 2, 1, [], false, 0, false, false, SendWaiting([8], 0, 1), {SYN_CALL, ACK_CALL, DATA_CALL, SECOND_CALL})

  lemma FirstIsAcked()
    ensures OnDeliver(SECOND_SENT, REPLY_PACKET.s, 0) == (ANSWERED, {})
  {}

  lemma TakeAnswer(run0: seq<System>, events0: seq<Event>) returns (run: seq<System>, events: seq<Event>)
    requires Continues(run0, events0) && run0[|events0|] == ACKED
    ensures Continues(run, events) && run[0] == run0[0] && events0 <= events && run[|events|] == ACKED.(b := ANSWERED)
  {
    hide Continues;
    FirstIsAcked();
    hide OnDeliver;
    run, events := Continue(run0, events0, false, Deliver(REPLY_PACKET, 0));
  }

  lemma ReportSecond(run0: seq<System>, events0: seq<Event>) returns (run: seq<System>, events: seq<Event>)
    requires Continues(run0, events0) && run0[|events0|] == ACKED.(b := ANSWERED)
    ensures Continues(run, events) && run[0] == run0[0] && events0 <= events
    ensures var s := run[|events|];
            s.a == SENT.a && s.b.tx == Idle && s.b.o.stream == [7, 8] && s.b.acked == 2
  {
    hide Continues;
    run, events := Continue(run0, events0, false, Wake(true));
  }
}
