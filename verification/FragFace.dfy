/** A face with fragmentation: the two halves of its fragmentation state are updated in place by
    the drain loop and by received fragments. */
module FragFace {
  import opened Options
  import opened NdnTlv
  import NdnPacket
  import opened NdnRoundTrip
  import opened FragWire
  import opened Fragmentation
  import opened Reassembly

  /** The datagrams of fragments. */
  function Wires(es: seq<Sent>): seq<seq<Byte>> {
    if es == [] then [] else [Wire(SuiteOf(es[0].pkt), es[0].frag)] + Wires(es[1..])
  }

  class Face {
    const mtu: nat
    var outq: seq<seq<Byte>>
    var bigpkt: Option<seq<Byte>>
    var sendoffs: nat
    var sendseq: nat
    var defrag: Option<seq<Byte>>
    var recvseq: nat
    /** The interface's queue of datagrams. */
    var ifq: seq<seq<Byte>>

    function Snd(): Sender
      reads this
    {
      Sender(mtu, outq, bigpkt, sendoffs, sendseq)
    }

    function Rcv(): Receiver
      reads this
    {
      Receiver(defrag, recvseq)
    }

    ghost predicate Valid()
      reads this
    {
      SenderOk(Snd())
    }

    constructor (m: nat)
      requires SaneMtu(m)
      ensures Valid() && Snd() == NewSender(m) && Rcv() == NEW_RECEIVER && ifq == []
    {
      mtu := m;
      outq, bigpkt, sendoffs, sendseq := [], None, 0, 0;
      defrag, recvseq, ifq := None, 0, [];
    }

    method Dequeue() returns (pkt: Option<seq<Byte>>)
      modifies `outq
      ensures old(outq) == [] ==> pkt == None && outq == []
      ensures old(outq) != [] ==> pkt == Some(old(outq[0])) && outq == old(outq[1..])
    {
      if outq == [] {
        return None;
      }
      pkt := Some(outq[0]);
      outq := outq[1..];
    }

    method FragReset(buf: Option<seq<Byte>>)
      modifies `bigpkt, `sendoffs
      ensures bigpkt == buf && sendoffs == 0
    {
      bigpkt := buf;
      sendoffs := 0;
    }

    method FragGetNext() returns (buf: Option<seq<Byte>>)
      requires Valid()
      modifies `bigpkt, `sendoffs, `sendseq
      ensures Valid()
      ensures var (s, e) := old(GetNext(Snd()));
              Snd() == s && buf == if e.Some? then Some(Wire(SuiteOf(e.value.pkt), e.value.frag)) else None
    {
      hide SuiteOf, PayloadLen, FlagOf, CcnWire, NdnWire;
      if bigpkt.None? {
        return None;
      }
      var pkt := bigpkt.value;
      var datalen;
      match SuiteOf(pkt) {
        case Ccnx =>
          var b;
          b, datalen := CcntlvMkFrag(mtu, pkt, sendoffs, sendseq);
          buf := Some(b[..]);
        case Ndn =>
          var b;
          b, datalen := NdntlvMkFrag(mtu, pkt, sendoffs, sendseq);
          buf := Some(b);
        case Other =>
          return None;
      }
      sendseq := Low32(sendseq + 1);
      sendoffs := sendoffs + datalen;
      if sendoffs >= |pkt| {
        bigpkt := None;
      }
    }

    /** Clear to send: without a scheduler, it calls itself until nothing more comes out. */
    method Cts()
      requires Valid() && Moves(Snd())
      modifies this
      ensures Valid() && Snd() == old(Drain(Snd()).0) && Rcv() == old(Rcv())
      ensures ifq == old(ifq) + Wires(old(Drain(Snd()).1))
      decreases |outq|, Unsent(Snd())
    {
      hide SuiteOf, Wire, Drain, GetNext;
      ghost var s := Snd();
      BusySends(s);
      var buf := FragGetNext();
      if buf.None? {
        var pkt := Dequeue();
        FragReset(pkt);
        assert Snd() == Reset(s);
        buf := FragGetNext();
      }
      if buf.Some? {
        DrainStep(s);
        RoundDecreases(s);
        ifq := ifq + [buf.value];
        Cts();
      } else {
        DrainStops(s);
      }
    }

    method Enqueue(buf: seq<Byte>) returns (rc: int)
      requires Valid() && Short(buf) && Moves(Fragmentation.Enqueue(Snd(), buf))
      modifies this
      ensures Valid() && Rcv() == old(Rcv())
      ensures rc == if old(buf in outq) then -1 else 0
      ensures rc != 0 ==> Snd() == old(Snd()) && ifq == old(ifq)
      ensures rc == 0 ==> var d := old(Drain(Fragmentation.Enqueue(Snd(), buf)));
                          Snd() == d.0 && ifq == old(ifq) + Wires(d.1)
    {
      var i := 0;
      while i < |outq|
        invariant 0 <= i <= |outq| && buf !in outq[..i]
      {
        if outq[i] == buf {
          return -1;
        }
        i := i + 1;
      }
      assert outq[..|outq|] == outq;
      ghost var s := Fragmentation.Enqueue(Snd(), buf);
      outq := outq + [buf];
      assert Snd() == s;
      Cts();
      rc := 0;
    }

    /** A fragment is received; the frame is what the callback gets. */
    method RxBeginEnd(flag: Flag, seqno: nat, data: seq<Byte>) returns (frame: Option<seq<Byte>>)
      modifies `defrag, `recvseq
      ensures (Rcv(), frame) == old(Receive(Rcv(), Frag(flag, seqno, data)))
    {
      if recvseq != seqno {
        defrag := None;
        recvseq := seqno;
      }
      frame := None;
      match flag {
        case Single =>
          defrag := None;
          recvseq := recvseq + 1;
          return Some(data);
        case First =>
          defrag := Some(data);
        case Last =>
          if defrag.Some? {
            frame := Some(defrag.value + data);
            defrag := None;
          }
        case Mid =>
          if defrag.Some? {
            defrag := Some(defrag.value + data);
          }
      }
      recvseq := recvseq + 1;
    }

    /** A datagram with a fragment, parsed and taken in. */
    method Rx(datagram: seq<Byte>) returns (frame: Option<seq<Byte>>)
      modifies `defrag, `recvseq
      ensures var f := ParseWire(datagram);
              (Rcv(), frame) == if f.Some? then old(Receive(Rcv(), f.value)) else (old(Rcv()), None)
    {
      hide ParseWire;
      var f := ParseWire(datagram);
      if f.Some? {
        frame := RxBeginEnd(f.value.flag, f.value.seqno, f.value.payload);
      } else {
        frame := None;
      }
    }
  }

  lemma DrainStops(s: Sender)
    requires SenderOk(s) && Moves(s) && Round(s).1.None?
    ensures Drain(s) == (Round(s).0, [])
  {
    hide Round;
  }

  // ----- from one face to another -----

  /** The frames that come out of a sequence of datagrams. */
  function FramesOnWire(r: Receiver, ws: seq<seq<Byte>>): seq<seq<Byte>>
    decreases |ws|
  {
    if ws == [] then []
    else
      match ParseWire(ws[0])
      case None => FramesOnWire(r, ws[1..])
      case Some(f) =>
        var (t, d) := Receive(r, f);
        (if d.Some? then [d.value] else []) + FramesOnWire(t, ws[1..])
  }

  ghost predicate AllSendable(es: seq<Sent>) {
    forall e :: e in es ==> Sendable(SuiteOf(e.pkt), e.frag)
  }

  lemma {:induction false} WiresArrive(r: Receiver, es: seq<Sent>)
    requires AllSendable(es)
    ensures FramesOnWire(r, Wires(es)) == AllFrames(r, es)
    decreases |es|
  {
    hide SuiteOf, Wire, Sendable, ParseWire;
    if es != [] {
      var e := es[0];
      assert e in es;
      WireRoundTrip(SuiteOf(e.pkt), e.frag);
      assert Wires(es)[1..] == Wires(es[1..]);
      WiresArrive(Receive(r, e.frag).0, es[1..]);
    }
  }

  lemma CutSendable(mtu: nat, pkt: seq<Byte>, offs: nat, n: nat)
    requires SaneMtu(mtu) && mtu <= 0xffff && offs <= |pkt| && Fragmentable(mtu, pkt) && RoomForHeader(mtu, pkt)
    ensures Sendable(SuiteOf(pkt), Cut(mtu, pkt, offs, n).frag)
  {
    hide NdnWire, SuiteOf, FlagOf, NdnHeader;
    var f := Cut(mtu, pkt, offs, n).frag;
    NdnWireSize(f);
    NdnHeaderSize(|f.payload|);
    NdnHeaderSize(Min(|pkt| - offs, mtu));
  }

  lemma {:induction false} CutsSendable(mtu: nat, pkt: seq<Byte>, offs: nat, n: nat)
    requires SaneMtu(mtu) && mtu <= 0xffff && offs <= |pkt| && Fragmentable(mtu, pkt) && RoomForHeader(mtu, pkt)
    ensures forall e :: e in Cuts(mtu, pkt, offs, n) ==> e.pkt == pkt && Sendable(SuiteOf(pkt), e.frag)
    decreases |pkt| - offs
  {
    hide Cuts, SuiteOf, PayloadLen, FlagOf, Sendable, RoomForHeader;
    ProgressUnlessHeaderOnly(SuiteOf(pkt), mtu, |pkt| - offs);
    CutsStep(mtu, pkt, offs, n);
    CutSendable(mtu, pkt, offs, n);
    var e := Cut(mtu, pkt, offs, n);
    if !Done(e) {
      CutsSendable(mtu, pkt, e.End(), n + 1);
    }
  }

  lemma {:induction false} QueueSendable(mtu: nat, queue: seq<seq<Byte>>, n: nat)
    requires SaneMtu(mtu) && mtu <= 0xffff && Sendables(mtu, queue)
    requires forall p :: p in queue ==> RoomForHeader(mtu, p)
    ensures AllSendable(QueueCuts(mtu, queue, n))
    decreases |queue|
  {
    hide Cuts, SuiteOf, Sendable, RoomForHeader;
    if queue != [] && SuiteOf(queue[0]) != Other {
      var c := Cuts(mtu, queue[0], 0, n);
      QueueStep(mtu, queue, n);
      QueueSendable(mtu, queue[1..], n + |c|);
      CutsSendable(mtu, queue[0], 0, n);
    }
  }

  /** What one face drains into datagrams, a face at the other end of a lossless link hands up: the
      queued packets in order, without those that straddle a wrap of the sequence numbers. */
  lemma EndToEnd(s: Sender, n: nat, r: Receiver)
    requires SenderOk(s) && Moves(s) && s.bigpkt.None? && s.sendseq == Low32(n) && s.mtu <= 0xffff
    requires forall p :: p in s.outq ==> RoomForHeader(s.mtu, p)
    ensures FramesOnWire(r, Wires(Drain(s).1)) == Intact(s.mtu, s.outq, n)
    ensures InWindow(n, |Drain(s).1|) ==> FramesOnWire(r, Wires(Drain(s).1)) == s.outq[..Served(s.outq)]
  {
    hide SuiteOf, RoomForHeader, QueueCuts, Drain, Intact, InWindow, Served, FramesOnWire, Wires;
    DrainSends(s, n);
    var es := QueueCuts(s.mtu, s.outq, n);
    QueueSendable(s.mtu, s.outq, n);
    WiresArrive(r, es);
    LosslessLink(s.mtu, s.outq, n, r);
    if InWindow(n, |es|) {
      IntactIsAll(s.mtu, s.outq, n);
    }
  }

  /** A packet as this program composes them for NDN, or one of CCNx. */
  ghost predicate IsPacket(p: seq<Byte>) {
    || (exists name, scope, nonce :: p == NdnPacket.InterestBytes(name, scope, nonce))
    || (exists name, payload, id :: p == NdnPacket.DataBytes(name, payload, id))
    || (|p| >= 2 && p[0] == 1 && p[1] <= 3)
  }

  lemma PacketSuite(p: seq<Byte>)
    requires IsPacket(p)
    ensures SuiteOf(p) == Ndn || SuiteOf(p) == Ccnx
  {
    hide NdnPacket.InterestBytes, NdnPacket.DataBytes, SuiteOf;
    if name, scope, nonce :| p == NdnPacket.InterestBytes(name, scope, nonce) {
      ComposedSuite(name, scope, nonce, [], None);
    } else if name, payload, id :| p == NdnPacket.DataBytes(name, payload, id) {
      ComposedSuite(name, 0, None, payload, id);
    } else {
      SuiteExactly(p);
    }
  }

  lemma {:induction false} PacketsServed(mtu: nat, queue: seq<seq<Byte>>)
    requires mtu > 12 && forall p :: p in queue ==> IsPacket(p)
    ensures Sendables(mtu, queue) && Served(queue) == |queue|
  {
    hide SuiteOf, IsPacket;
    if queue != [] {
      assert queue[0] in queue && forall p :: p in queue[1..] ==> p in queue;
      PacketSuite(queue[0]);
      PacketsServed(mtu, queue[1..]);
    }
  }

  /** A queue of packets arrives whole and in order at the other end of a lossless link, as long as
      its fragments stay within one window of the sequence numbers. */
  lemma PacketsArrive(s: Sender, n: nat, r: Receiver)
    requires SenderOk(s) && s.bigpkt.None? && s.sendseq == Low32(n) && 12 < s.mtu <= 0xffff
    requires forall p :: p in s.outq ==> IsPacket(p)
    ensures Moves(s)
    ensures n % 0x4000 + |Drain(s).1| <= 0x4000 ==> FramesOnWire(r, Wires(Drain(s).1)) == s.outq
  {
    hide SuiteOf, IsPacket, Drain, FramesOnWire, Wires, Intact;
    PacketsServed(s.mtu, s.outq);
    EndToEnd(s, n, r);
    assert s.outq[..|s.outq|] == s.outq;
  }

  // ----- where the limits are -----

  const PACKET_A: seq<Byte> := [1, 0, 7]
  const PACKET_B: seq<Byte> := [1, 1, 8]
  const SPLICE_ARRIVALS: seq<nat> := [0, SEQ_SPACE + 1]
  const SPLICED: seq<Byte> := [1, 0, 8]

  function Cycle(pkt: seq<Byte>): seq<Event> {
    [Enq(pkt), Cts, Cts]
  }

  function Cycles(k: nat): seq<Event> {
    if k == 0 then [] else Cycle(PACKET_A) + Cycles(k - 1)
  }

  function Idle(n: nat, offs: nat): Sender {
    Sender(14, [], None, offs, Low32(n))
  }

  lemma SmallCuts(pkt: seq<Byte>, n: nat)
    requires pkt in {PACKET_A, PACKET_B}
    ensures Cut(14, pkt, 0, n) == Sent(Frag(First, n % SEQ_SPACE, pkt[..2]), pkt, 0)
    ensures Cut(14, pkt, 2, n) == Sent(Frag(Last, n % SEQ_SPACE, pkt[2..]), pkt, 2)
  {
    assert pkt[0..2] == pkt[..2] && pkt[2..3] == pkt[2..];
  }

  lemma CycleSteps(pkt: seq<Byte>, n: nat, offs: nat)
    requires pkt in {PACKET_A, PACKET_B}
    ensures var s := Idle(n, offs);
            var t, u := s.(outq := [pkt]), Sender(14, [], Some(pkt), 2, Low32(n + 1));
            && SuiteOf(pkt) == Ccnx && Act(s, Enq(pkt)) == (t, [])
            && Act(t, Cts) == (u, [Cut(14, pkt, 0, n)])
            && Act(u, Cts) == (Idle(n + 2, 3), [Cut(14, pkt, 2, n + 1)])
  {
    hide PayloadLen, FlagOf;
    assert [] + [pkt] == [pkt];
    LowBits(n);
    LowBits(n + 1);
    SmallCuts(pkt, n);
    SmallCuts(pkt, Low32(n));
    SmallCuts(pkt, n + 1);
    SmallCuts(pkt, Low32(n + 1));
  }

  lemma OneCycle(pkt: seq<Byte>, n: nat, offs: nat, tail: seq<Event>)
    requires pkt in {PACKET_A, PACKET_B} && Feasible(tail)
    ensures Feasible(Cycle(pkt) + tail)
    ensures RunLog(Idle(n, offs), Cycle(pkt) + tail)
         == [Cut(14, pkt, 0, n), Cut(14, pkt, 2, n + 1)] + RunLog(Idle(n + 2, 3), tail)
  {
    hide Cut, Act, Low32;
    var s, evs := Idle(n, offs), Cycle(pkt) + tail;
    CycleSteps(pkt, n, offs);
    var t, u := s.(outq := [pkt]), Sender(14, [], Some(pkt), 2, Low32(n + 1));
    var evs1, evs2 := evs[1..], evs[2..];
    assert evs[0] == Enq(pkt) && evs1[0] == Cts == evs2[0] && evs1[1..] == evs2 && evs2[1..] == tail;
    assert RunLog(s, evs) == [] + RunLog(t, evs1);
    assert RunLog(t, evs1) == [Cut(14, pkt, 0, n)] + RunLog(u, evs2);
    assert RunLog(u, evs2) == [Cut(14, pkt, 2, n + 1)] + RunLog(Idle(n + 2, 3), tail);
  }

  lemma {:induction false} ManyCycles(k: nat, n: nat, offs: nat, tail: seq<Event>)
    requires Feasible(tail)
    ensures Feasible(Cycles(k) + tail)
    ensures var log := RunLog(Idle(n, offs), Cycles(k) + tail);
            var rest := RunLog(Idle(n + 2 * k, if k == 0 then offs else 3), tail);
            && |log| == 2 * k + |rest| && log[2 * k..] == rest
            && (k > 0 ==> log[0] == Cut(14, PACKET_A, 0, n))
  {
    hide Cut, RunLog, Low32, Feasible;
    if k == 0 {
      assert Cycles(k) + tail == tail;
    } else {
      ManyCycles(k - 1, n + 2, 3, tail);
      assert Cycles(k) + tail == Cycle(PACKET_A) + (Cycles(k - 1) + tail);
      OneCycle(PACKET_A, n, offs, Cycles(k - 1) + tail);
    }
  }

  const HALF_SPACE: nat := SEQ_SPACE / 2

  function SpliceRun(): seq<Event> {
    Cycles(HALF_SPACE) + Cycle(PACKET_B)
  }

  /** Across a wrap, fragments of two packets can be mistaken for neighbours: if all that arrives is
      the first fragment of one and, a sequence space later, the last of another, the receiver hands
      up a frame that was never sent. */
  lemma WrapSplices()
    ensures SaneMtu(14) && Feasible(SpliceRun())
    ensures var log := RunLog(NewSender(14), SpliceRun());
            && Schedule(log, SPLICE_ARRIVALS) && Mistaken(0, SEQ_SPACE + 1)
            && Delivered(NEW_RECEIVER, log, SPLICE_ARRIVALS, 1) == Some(SPLICED)
            && Enq(SPLICED) !in SpliceRun()
  {
    hide RunLog, Cut, Cycles;
    assert Cycle(PACKET_B) + [] == Cycle(PACKET_B);
    OneCycle(PACKET_B, SEQ_SPACE, 3, []);
    ManyCycles(HALF_SPACE, 0, 0, Cycle(PACKET_B));
    var log := RunLog(NewSender(14), SpliceRun());
    assert log[SEQ_SPACE + 1] == log[SEQ_SPACE..][1];
    assert (SEQ_SPACE + 1) % SEQ_SPACE == 1;
    SmallCuts(PACKET_A, 0);
    SmallCuts(PACKET_B, SEQ_SPACE + 1);
    SplicedIsNew();
    var a: seq<Byte>, b: seq<Byte> := [1, 0], [8];
    assert PACKET_A[..2] == a && PACKET_B[2..] == b && a + b == SPLICED;
    assert log[0].frag == Frag(First, 0, a) && log[SEQ_SPACE + 1].frag == Frag(Last, 1, b);
    TwoArrivals(log, SPLICE_ARRIVALS);
  }

  lemma TwoArrivals(log: seq<Sent>, arrivals: seq<nat>)
    requires |arrivals| == 2 && Schedule(log, arrivals)
    ensures Delivered(NEW_RECEIVER, log, arrivals, 1)
         == Receive(Receive(NEW_RECEIVER, log[arrivals[0]].frag).0, log[arrivals[1]].frag).1
  {
    assert After(NEW_RECEIVER, log, arrivals, 0) == NEW_RECEIVER;
  }

  lemma SplicedIsNew()
    ensures Enq(SPLICED) !in SpliceRun()
  {
    hide Cycles;
    OnlyPacketA(HALF_SPACE);
    assert PACKET_A[2] != 8 && PACKET_B[1] != 0;
    assert SPLICED[2] == 8 && SPLICED[1] == 0;
  }

  lemma {:induction false} OnlyPacketA(k: nat)
    ensures forall p :: Enq(p) in Cycles(k) ==> p == PACKET_A
  {
    if k > 0 {
      OnlyPacketA(k - 1);
    }
  }
}
