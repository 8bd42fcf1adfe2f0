/** Begin-End fragmentation: sending, receiving, and draining a face's queue. */
module Fragmentation {
  import opened Options
  import opened NdnTlv
  import opened NdnRoundTrip
  import opened FragWire

  // ----- the sender -----

  /** The sending half of a face: its queue and the packet being fragmented. */
  datatype Sender = Sender(mtu: nat, outq: seq<seq<Byte>>, bigpkt: Option<seq<Byte>>, sendoffs: nat, sendseq: nat)

  /** A fragment together with where it comes from. */
  datatype Sent = Sent(frag: Frag, pkt: seq<Byte>, offs: nat) {
    function End(): nat {
      offs + |frag.payload|
    }
  }

  predicate SenderOk(s: Sender) {
    && SaneMtu(s.mtu) && (forall p :: p in s.outq ==> Short(p))
    && (s.bigpkt.Some? ==> Short(s.bigpkt.value) && (s.sendoffs == 0 || s.sendoffs < |s.bigpkt.value|))
  }

  /** The fragment of a packet that starts at an offset. */
  function Cut(mtu: nat, pkt: seq<Byte>, offs: nat, seqno: nat): Sent
    requires offs <= |pkt|
  {
    var n := PayloadLen(SuiteOf(pkt), mtu, |pkt| - offs);
    Sent(Frag(FlagOf(n, offs, |pkt|), seqno % SEQ_SPACE, pkt[offs..offs + n]), pkt, offs)
  }

  /** One fragment, if there is a packet and its suite has fragments. */
  function GetNext(s: Sender): (r: (Sender, Option<Sent>))
    requires SenderOk(s)
    ensures SenderOk(r.0)
  {
    if s.bigpkt.None? || SuiteOf(s.bigpkt.value) == Other then (s, None)
    else
      var e := Cut(s.mtu, s.bigpkt.value, s.sendoffs, s.sendseq);
      (s.(sendseq := Low32(s.sendseq + 1), sendoffs := e.End(),
          bigpkt := if e.End() >= |s.bigpkt.value| then None else s.bigpkt), Some(e))
  }

  /** The next packet is taken from the queue, whatever became of the last. */
  function Reset(s: Sender): (r: Sender)
    requires SenderOk(s)
    ensures SenderOk(r)
  {
    if s.outq == [] then s.(bigpkt := None, sendoffs := 0)
    else s.(bigpkt := Some(s.outq[0]), outq := s.outq[1..], sendoffs := 0)
  }

  /** What a clear-to-send does first: a fragment of the current packet, or else of the next one. */
  function Round(s: Sender): (r: (Sender, Option<Sent>))
    requires SenderOk(s)
    ensures SenderOk(r.0)
  {
    var r := GetNext(s);
    if r.1.Some? then r else GetNext(Reset(s))
  }

  function Enqueue(s: Sender, pkt: seq<Byte>): (r: Sender)
    requires SenderOk(s) && Short(pkt)
    ensures SenderOk(r)
  {
    if pkt in s.outq then s else s.(outq := s.outq + [pkt])
  }

  predicate Busy(s: Sender) {
    s.bigpkt.Some? && SuiteOf(s.bigpkt.value) != Other
  }

  predicate Fragmentable(mtu: nat, pkt: seq<Byte>) {
    SuiteOf(pkt) != Other && mtu != HeaderLen(SuiteOf(pkt))
  }

  /** The packets before the first of a suite without fragments can be fragmented. */
  predicate Sendables(mtu: nat, queue: seq<seq<Byte>>) {
    queue == [] || SuiteOf(queue[0]) == Other || (Fragmentable(mtu, queue[0]) && Sendables(mtu, queue[1..]))
  }

  /** A clear-to-send without scheduler repeats itself as long as fragments come out. `DrainEnds`
      says that this is when it comes to an end. */
  predicate Moves(s: Sender) {
    (Busy(s) ==> Fragmentable(s.mtu, s.bigpkt.value)) && Sendables(s.mtu, s.outq)
  }

  function Unsent(s: Sender): nat {
    match s.bigpkt
    case None => 0
    case Some(p) => 1 + if s.sendoffs <= |p| then |p| - s.sendoffs else 0
  }

  lemma RoundDecreases(s: Sender)
    requires SenderOk(s) && Moves(s) && Round(s).1.Some?
    ensures Moves(Round(s).0)
    ensures |Round(s).0.outq| < |s.outq| || (|Round(s).0.outq| == |s.outq| && Unsent(Round(s).0) < Unsent(s))
  {
    hide PayloadLen, SuiteOf, HeaderLen;
    if GetNext(s).1.Some? {
      GetNextDecreases(s);
    } else {
      GetNextDecreases(Reset(s));
    }
  }

  lemma GetNextDecreases(s: Sender)
    requires SenderOk(s) && GetNext(s).1.Some? && Moves(s)
    ensures Moves(GetNext(s).0)
    ensures GetNext(s).0.outq == s.outq && Unsent(GetNext(s).0) < Unsent(s)
  {
    hide PayloadLen, SuiteOf;
    var p := s.bigpkt.value;
    ProgressUnlessHeaderOnly(SuiteOf(p), s.mtu, |p| - s.sendoffs);
  }

  ghost function Drain(s: Sender): (r: (Sender, seq<Sent>))
    requires SenderOk(s) && Moves(s)
    ensures SenderOk(r.0)
    decreases |s.outq|, Unsent(s)
  {
    var r := Round(s);
    if r.1.None? then (r.0, [])
    else
      RoundDecreases(s);
      var d := Drain(r.0);
      (d.0, [r.1.value] + d.1)
  }

  // ----- when a drain ends -----

  /** The sender after some rounds. */
  function Rounds(s: Sender, n: nat): (r: Sender)
    requires SenderOk(s)
    ensures SenderOk(r)
    decreases n
  {
    if n == 0 then s else Rounds(Round(s).0, n - 1)
  }

  ghost predicate ComesToRest(s: Sender)
    requires SenderOk(s)
  {
    exists n: nat :: Round(Rounds(s, n)).1.None?
  }

  /** With an MTU of exactly the header size, a fragment carries nothing and the sender is where it
      was. */
  lemma StuckAtHeader(s: Sender)
    requires SenderOk(s) && Busy(s) && !Fragmentable(s.mtu, s.bigpkt.value)
    ensures Round(s).1.Some? && Round(s).0 == s.(sendseq := Low32(s.sendseq + 1))
  {
    hide PayloadLen, FlagOf;
    ProgressUnlessHeaderOnly(SuiteOf(s.bigpkt.value), s.mtu, |s.bigpkt.value| - s.sendoffs);
  }

  lemma StuckStays(s: Sender)
    requires SenderOk(s) && !Moves(s)
    ensures Round(s).1.Some? && !Moves(Round(s).0)
  {
    hide SuiteOf, PayloadLen, FlagOf, HeaderLen;
    var t := if Busy(s) then s else Reset(s);
    assert Busy(t) && Round(s) == GetNext(t);
    if Fragmentable(t.mtu, t.bigpkt.value) {
      assert !Sendables(t.mtu, t.outq);
      assert GetNext(t).0.outq == t.outq && GetNext(t).0.mtu == t.mtu;
    } else {
      StuckAtHeader(t);
    }
  }

  lemma {:induction false} NeverRests(s: Sender, n: nat)
    requires SenderOk(s) && !Moves(s)
    ensures Round(Rounds(s, n)).1.Some?
    decreases n
  {
    hide Round, Moves;
    StuckStays(s);
    if n > 0 {
      NeverRests(Round(s).0, n - 1);
    }
  }

  lemma {:induction false} Rests(s: Sender) returns (n: nat)
    requires SenderOk(s) && Moves(s)
    ensures Round(Rounds(s, n)).1.None?
    decreases |s.outq|, Unsent(s)
  {
    hide Round, Moves;
    if Round(s).1.None? {
      n := 0;
    } else {
      RoundDecreases(s);
      var m := Rests(Round(s).0);
      n := m + 1;
    }
  }

  /** The drain ends exactly if the current packet, when it is one that is cut into fragments, and
      the packets up to the first of a suite without fragments have an MTU other than the size of
      their header. */
  lemma DrainEnds(s: Sender)
    requires SenderOk(s)
    ensures ComesToRest(s) <==> Moves(s)
  {
    hide Round, Moves;
    if Moves(s) {
      var n := Rests(s);
    } else {
      forall n: nat ensures Round(Rounds(s, n)).1.Some? {
        NeverRests(s, n);
      }
    }
  }

  // ----- what a drain sends -----

  /** All fragments of one packet, from an offset on. */
  ghost function Cuts(mtu: nat, pkt: seq<Byte>, offs: nat, seqno: nat): (r: seq<Sent>)
    requires SaneMtu(mtu) && offs <= |pkt| && Fragmentable(mtu, pkt)
    ensures |r| > 0
    decreases |pkt| - offs
  {
    var e := Cut(mtu, pkt, offs, seqno);
    ProgressUnlessHeaderOnly(SuiteOf(pkt), mtu, |pkt| - offs);
    if e.End() >= |pkt| then [e] else [e] + Cuts(mtu, pkt, e.End(), seqno + 1)
  }

  /** The fragments of packets in order, up to the first of a suite without fragments. */
  ghost function QueueCuts(mtu: nat, queue: seq<seq<Byte>>, seqno: nat): seq<Sent>
    requires SaneMtu(mtu) && Sendables(mtu, queue)
  {
    if queue == [] || SuiteOf(queue[0]) == Other then []
    else
      var c := Cuts(mtu, queue[0], 0, seqno);
      c + QueueCuts(mtu, queue[1..], seqno + |c|)
  }

  function Payloads(es: seq<Sent>): seq<Byte> {
    if es == [] then [] else es[0].frag.payload + Payloads(es[1..])
  }

  /** The fragments of a packet carry it completely, without gap or overlap. */
  lemma {:induction false} CutsCarryPacket(mtu: nat, pkt: seq<Byte>, offs: nat, seqno: nat)
    requires SaneMtu(mtu) && offs <= |pkt| && Fragmentable(mtu, pkt)
    ensures Payloads(Cuts(mtu, pkt, offs, seqno)) == pkt[offs..]
    decreases |pkt| - offs
  {
    hide SuiteOf, PayloadLen, FlagOf;
    var e := Cut(mtu, pkt, offs, seqno);
    ProgressUnlessHeaderOnly(SuiteOf(pkt), mtu, |pkt| - offs);
    assert Payloads([e]) == e.frag.payload + Payloads([]);
    if e.End() < |pkt| {
      var rest := Cuts(mtu, pkt, e.End(), seqno + 1);
      CutsCarryPacket(mtu, pkt, e.End(), seqno + 1);
      assert ([e] + rest)[1..] == rest;
      assert pkt[offs..] == pkt[offs..e.End()] + pkt[e.End()..];
    }
  }

  /** A fragment as cut from its packet, and how the next one continues. */
  predicate IsCut(e: Sent) {
    && e.pkt != [] && e.End() <= |e.pkt| && e.frag.payload == e.pkt[e.offs..e.End()]
    && e.frag.flag == FlagOf(|e.frag.payload|, e.offs, |e.pkt|)
  }

  predicate Done(e: Sent) {
    e.End() >= |e.pkt|
  }

  predicate Follows(a: Sent, b: Sent) {
    if Done(a) then b.offs == 0 else b.pkt == a.pkt && b.offs == a.End()
  }

  ghost predicate WellFormed(log: seq<Sent>, base: nat) {
    && (forall i | 0 <= i < |log| :: IsCut(log[i]) && log[i].frag.seqno == (base + i) % SEQ_SPACE)
    && (forall i | 0 < i < |log| :: Follows(log[i - 1], log[i]))
  }

  lemma WellFormedAppend(a: seq<Sent>, b: seq<Sent>, base: nat)
    requires WellFormed(a, base) && WellFormed(b, base + |a|)
    requires a != [] && b != [] ==> Follows(a[|a| - 1], b[0])
    ensures WellFormed(a + b, base)
  {
    hide IsCut, Follows;
    var c := a + b;
    forall i | 0 <= i < |c| ensures IsCut(c[i]) && c[i].frag.seqno == (base + i) % SEQ_SPACE {
      if i >= |a| {
        assert c[i] == b[i - |a|];
      }
    }
    forall i | 0 < i < |c| ensures Follows(c[i - 1], c[i]) {
      if i > |a| {
        assert c[i] == b[i - |a|] && c[i - 1] == b[i - |a| - 1];
      }
    }
  }

  lemma CutIsCut(mtu: nat, pkt: seq<Byte>, offs: nat, seqno: nat)
    requires offs <= |pkt| && pkt != []
    ensures IsCut(Cut(mtu, pkt, offs, seqno)) && Cut(mtu, pkt, offs, seqno).frag.seqno == seqno % SEQ_SPACE
  {
    hide PayloadLen, SuiteOf, FlagOf;
  }

  /** The form of a packet's fragments: consecutive numbers and offsets, and only the last one
      reaches the end. */
  lemma {:induction false} CutsForm(mtu: nat, pkt: seq<Byte>, offs: nat, seqno: nat)
    requires SaneMtu(mtu) && offs <= |pkt| && Fragmentable(mtu, pkt)
    ensures var es := Cuts(mtu, pkt, offs, seqno);
            && WellFormed(es, seqno) && es[0].offs == offs
            && (forall k | 0 <= k < |es| :: es[k].pkt == pkt && (Done(es[k]) <==> k == |es| - 1))
            && (forall k | 0 < k < |es| :: offs < es[k].offs)
    decreases |pkt| - offs
  {
    hide PayloadLen, FlagOf;
    var e, es := Cut(mtu, pkt, offs, seqno), Cuts(mtu, pkt, offs, seqno);
    CutIsCut(mtu, pkt, offs, seqno);
    ProgressUnlessHeaderOnly(SuiteOf(pkt), mtu, |pkt| - offs);
    assert WellFormed([e], seqno);
    if e.End() < |pkt| {
      var rest := Cuts(mtu, pkt, e.End(), seqno + 1);
      CutsForm(mtu, pkt, e.End(), seqno + 1);
      WellFormedAppend([e], rest, seqno);
      assert forall k | 0 < k < |es| :: es[k] == rest[k - 1];
    }
  }

  /** Hence the flags mark the only, the first and the last fragment of a packet. */
  lemma FlagsMarkEnds(mtu: nat, pkt: seq<Byte>, seqno: nat, k: nat)
    requires SaneMtu(mtu) && Fragmentable(mtu, pkt) && k < |Cuts(mtu, pkt, 0, seqno)|
    ensures var es := Cuts(mtu, pkt, 0, seqno);
            es[k].frag.flag == if |es| == 1 then Single else if k == 0 then First else if k == |es| - 1 then Last else Mid
  {
    hide Cuts, SuiteOf, PayloadLen;
    CutsForm(mtu, pkt, 0, seqno);
    var es := Cuts(mtu, pkt, 0, seqno);
    assert IsCut(es[k]) && es[k].pkt == pkt;
    assert Done(es[k]) <==> k == |es| - 1;
  }

  /** How many packets of a queue are sent: those before the first without fragments. */
  function Served(queue: seq<seq<Byte>>): (n: nat)
    ensures n <= |queue|
  {
    if queue == [] || SuiteOf(queue[0]) == Other then 0 else 1 + Served(queue[1..])
  }

  /** All that a drain sends, if the next fragment is number `n`. */
  ghost function Outgoing(s: Sender, n: nat): seq<Sent>
    requires SenderOk(s) && Moves(s)
  {
    if !Busy(s) then QueueCuts(s.mtu, s.outq, n)
    else
      var c := Cuts(s.mtu, s.bigpkt.value, s.sendoffs, n);
      c + QueueCuts(s.mtu, s.outq, n + |c|)
  }

  lemma LowBits(n: nat)
    ensures Low32(n) % SEQ_SPACE == n % SEQ_SPACE && Low32(Low32(n) + 1) == Low32(n + 1)
  {
    var q := n / 0x1_0000_0000;
    assert n == 0x1_0000_0000 * q + Low32(n);
    assert n == SEQ_SPACE * (0x4_0000 * q) + Low32(n);
  }

  lemma ResetMoves(s: Sender)
    requires SenderOk(s) && Moves(s) && s.outq != [] && SuiteOf(s.outq[0]) != Other
    ensures Moves(Reset(s))
  {
    hide SuiteOf, HeaderLen;
  }

  lemma NothingToDrain(s: Sender)
    requires SenderOk(s) && Moves(s) && !Busy(s) && s.outq == []
    ensures Drain(s) == (Reset(s), []) && forall n: nat :: Outgoing(s, n) == []
  {
    hide SuiteOf;
  }

  lemma NextIsOther(s: Sender, n: nat)
    requires SenderOk(s) && Moves(s) && !Busy(s) && s.outq != [] && SuiteOf(s.outq[0]) == Other
    ensures Drain(s) == (Reset(s), []) && Outgoing(s, n) == []
  {
    hide SuiteOf;
  }

  lemma SameRound(s: Sender, t: Sender)
    requires SenderOk(s) && Moves(s) && SenderOk(t) && Moves(t) && Round(s) == Round(t)
    ensures Drain(s) == Drain(t)
  {
    hide SuiteOf, Round;
  }

  lemma NextIsStarted(s: Sender, n: nat)
    requires SenderOk(s) && Moves(s) && !Busy(s) && s.outq != [] && SuiteOf(s.outq[0]) != Other
    ensures Busy(Reset(s)) && Moves(Reset(s))
    ensures Drain(s) == Drain(Reset(s)) && Outgoing(s, n) == Outgoing(Reset(s), n)
  {
    hide SuiteOf, Cuts, Cut, Drain;
    ResetMoves(s);
    var t := Reset(s);
    assert Round(s) == Round(t);
    SameRound(s, t);
    QueueStep(s.mtu, s.outq, n);
  }

  lemma QueueStep(mtu: nat, queue: seq<seq<Byte>>, n: nat)
    requires SaneMtu(mtu) && Sendables(mtu, queue)
    requires queue != [] && SuiteOf(queue[0]) != Other
    ensures Fragmentable(mtu, queue[0])
    ensures var c := Cuts(mtu, queue[0], 0, n);
            QueueCuts(mtu, queue, n) == c + QueueCuts(mtu, queue[1..], n + |c|)
  {
    hide Cuts, SuiteOf;
  }

  lemma CutsStep(mtu: nat, pkt: seq<Byte>, offs: nat, n: nat)
    requires SaneMtu(mtu) && offs <= |pkt| && Fragmentable(mtu, pkt)
    ensures var e := Cut(mtu, pkt, offs, n);
            && (Done(e) ==> Cuts(mtu, pkt, offs, n) == [e])
            && (!Done(e) ==> Cuts(mtu, pkt, offs, n) == [e] + Cuts(mtu, pkt, e.End(), n + 1))
  {
    hide SuiteOf, PayloadLen, FlagOf;
    ProgressUnlessHeaderOnly(SuiteOf(pkt), mtu, |pkt| - offs);
  }

  lemma RoundOfBusy(s: Sender, n: nat)
    requires SenderOk(s) && Moves(s) && Busy(s) && s.sendseq == Low32(n)
    ensures var t, p, e := GetNext(s).0, s.bigpkt.value, Cut(s.mtu, s.bigpkt.value, s.sendoffs, n);
            && Moves(t) && t.sendseq == Low32(n + 1) && t.mtu == s.mtu && t.outq == s.outq && Unsent(t) < Unsent(s)
            && t.bigpkt == (if Done(e) then None else Some(p)) && t.sendoffs == e.End() && e.pkt == p
            && Drain(s) == (Drain(t).0, [e] + Drain(t).1)
  {
    hide SuiteOf, PayloadLen, FlagOf, Drain;
    LowBits(n);
    GetNextDecreases(s);
    assert Round(s) == GetNext(s);
    DrainStep(s);
    assert GetNext(s).1.value == Cut(s.mtu, s.bigpkt.value, s.sendoffs, n);
  }

  lemma DrainStep(s: Sender)
    requires SenderOk(s) && Moves(s) && Round(s).1.Some?
    ensures Moves(Round(s).0)
    ensures Drain(s) == (Drain(Round(s).0).0, [Round(s).1.value] + Drain(Round(s).0).1)
  {
    hide Round, SuiteOf;
    RoundDecreases(s);
    var r := Round(s);
    assert Drain(s).0 == Drain(r.0).0;
    assert Drain(s).1 == [r.1.value] + Drain(r.0).1;
  }

  /** A drain sends one fragment of the current packet, then the rest. */
  lemma OneMore(s: Sender, n: nat)
    requires SenderOk(s) && Moves(s) && Busy(s) && s.sendseq == Low32(n)
    ensures var t := GetNext(s).0;
            && Moves(t) && t.sendseq == Low32(n + 1) && t.outq == s.outq && Unsent(t) < Unsent(s)
            && Drain(s).0 == Drain(t).0
            && (Drain(t).1 == Outgoing(t, n + 1) ==> Drain(s).1 == Outgoing(s, n))
  {
    RoundOfBusy(s, n);
    hide Cut, GetNext, Drain;
    var p, t := s.bigpkt.value, GetNext(s).0;
    OutgoingStep(s, t, n, Cut(s.mtu, p, s.sendoffs, n));
  }

  lemma OutgoingStep(s: Sender, t: Sender, n: nat, e: Sent)
    requires SenderOk(s) && Moves(s) && Busy(s) && SenderOk(t) && Moves(t)
    requires e == Cut(s.mtu, s.bigpkt.value, s.sendoffs, n)
    requires t.mtu == s.mtu && t.outq == s.outq && t.sendoffs == e.End() && e.pkt == s.bigpkt.value
    requires t.bigpkt == if Done(e) then None else s.bigpkt
    ensures Outgoing(s, n) == [e] + Outgoing(t, n + 1)
  {
    hide SuiteOf, Cut, QueueCuts, Cuts;
    assert Fragmentable(s.mtu, s.bigpkt.value);
    CutsStep(s.mtu, s.bigpkt.value, s.sendoffs, n);
    assert Busy(t) <==> !Done(e);
    if !Done(e) {
      var c := Cuts(s.mtu, e.pkt, e.End(), n + 1);
      var q := QueueCuts(s.mtu, s.outq, n + 1 + |c|);
      assert Outgoing(t, n + 1) == c + q;
      assert Outgoing(s, n) == ([e] + c) + q;
    } else {
      assert Outgoing(t, n + 1) == QueueCuts(s.mtu, s.outq, n + 1);
      assert Outgoing(s, n) == [e] + QueueCuts(s.mtu, s.outq, n + 1);
    }
  }

  /** A drain sends the rest of the current packet and then the queue in its order, stopping at the
      first packet whose suite has no fragments; that packet is taken off the queue and lost. */
  lemma {:induction false} DrainSends(s: Sender, n: nat)
    requires SenderOk(s) && Moves(s) && s.sendseq == Low32(n)
    ensures Drain(s).1 == Outgoing(s, n)
    ensures var k, t := Served(s.outq), Drain(s).0;
            if k == |s.outq| then t.outq == [] && t.bigpkt.None?
            else t.outq == s.outq[k + 1..] && t.bigpkt == Some(s.outq[k])
    decreases |s.outq|, Unsent(s)
  {
    hide PayloadLen, SuiteOf, Cuts, QueueCuts, Drain, Cut;
    if Busy(s) {
      OneMore(s, n);
      DrainSends(GetNext(s).0, n + 1);
    } else if s.outq == [] {
      NothingToDrain(s);
    } else if SuiteOf(s.outq[0]) == Other {
      NextIsOther(s, n);
    } else {
      NextIsStarted(s, n);
      DrainSends(Reset(s), n);
      assert Served(s.outq) == 1 + Served(s.outq[1..]);
    }
  }

  function Concat(packets: seq<seq<Byte>>): seq<Byte> {
    if packets == [] then [] else packets[0] + Concat(packets[1..])
  }

  lemma {:induction false} PayloadsAppend(a: seq<Sent>, b: seq<Sent>)
    ensures Payloads(a + b) == Payloads(a) + Payloads(b)
  {
    if a == [] {
      assert a + b == b;
    } else {
      PayloadsAppend(a[1..], b);
      assert (a + b)[1..] == a[1..] + b && (a + b)[0] == a[0];
      assert Payloads(a + b) == a[0].frag.payload + Payloads(a[1..] + b);
      assert Payloads(a) == a[0].frag.payload + Payloads(a[1..]);
    }
  }

  /** The payloads of a drained queue are its packets, in order; the fragments are numbered and cut
      as a receiver expects, and the last one completes its packet. */
  lemma {:induction false} QueueForm(mtu: nat, queue: seq<seq<Byte>>, n: nat)
    requires SaneMtu(mtu) && Sendables(mtu, queue)
    ensures var es := QueueCuts(mtu, queue, n);
            && Payloads(es) == Concat(queue[..Served(queue)]) && WellFormed(es, n)
            && (es != [] ==> es[0].offs == 0 && Done(es[|es| - 1]))
  {
    hide Cuts, SuiteOf, WellFormed, Payloads, Concat;
    if queue != [] && SuiteOf(queue[0]) != Other {
      var c, rest := Cuts(mtu, queue[0], 0, n), queue[1..];
      var q := QueueCuts(mtu, rest, n + |c|);
      QueueStep(mtu, queue, n);
      CutsForm(mtu, queue[0], 0, n);
      QueueForm(mtu, rest, n + |c|);
      JoinCuts(c, q, n);
      CutsCarryPacket(mtu, queue[0], 0, n);
      PayloadsAppend(c, q);
      ConcatStep(queue);
    } else {
      EmptyForm(n);
    }
  }

  lemma EmptyForm(n: nat)
    ensures Payloads([]) == [] == Concat([]) && WellFormed([], n)
  {
  }

  lemma ConcatStep(queue: seq<seq<Byte>>)
    requires queue != [] && SuiteOf(queue[0]) != Other
    ensures Concat(queue[..Served(queue)]) == queue[0] + Concat(queue[1..][..Served(queue[1..])])
  {
    hide SuiteOf;
    assert queue[..Served(queue)][1..] == queue[1..][..Served(queue[1..])];
  }

  lemma JoinCuts(c: seq<Sent>, q: seq<Sent>, n: nat)
    requires c != [] && WellFormed(c, n) && WellFormed(q, n + |c|) && Done(c[|c| - 1])
    requires q != [] ==> q[0].offs == 0 && Done(q[|q| - 1])
    ensures WellFormed(c + q, n) && Done((c + q)[|c + q| - 1])
  {
    hide IsCut;
    WellFormedAppend(c, q, n);
  }

  predicate FitsMtu(mtu: nat, e: Sent) {
    |Wire(SuiteOf(e.pkt), e.frag)| <= mtu
  }

  predicate RoomForHeader(mtu: nat, pkt: seq<Byte>) {
    HeaderLen(SuiteOf(pkt)) <= mtu
  }

  /** Every fragment of a drained queue fits the MTU exactly if the smallest header of its suite does. */
  lemma {:induction false} QueueFitsMtu(mtu: nat, queue: seq<seq<Byte>>, n: nat)
    requires SaneMtu(mtu) && Sendables(mtu, queue)
    ensures forall e :: e in QueueCuts(mtu, queue, n) ==>
              e.pkt in queue && (FitsMtu(mtu, e) <==> RoomForHeader(mtu, e.pkt))
  {
    hide Cuts, SuiteOf, FitsMtu, RoomForHeader;
    if queue != [] && SuiteOf(queue[0]) != Other {
      var c := Cuts(mtu, queue[0], 0, n);
      QueueStep(mtu, queue, n);
      QueueFitsMtu(mtu, queue[1..], n + |c|);
      CutsFitMtu(mtu, queue[0], 0, n);
    }
  }

  lemma CutFitsMtu(mtu: nat, pkt: seq<Byte>, offs: nat, n: nat)
    requires SaneMtu(mtu) && offs <= |pkt| && Fragmentable(mtu, pkt)
    ensures FitsMtu(mtu, Cut(mtu, pkt, offs, n)) <==> RoomForHeader(mtu, pkt)
  {
    hide SuiteOf, Wire, PayloadLen, FlagOf, HeaderLen;
    FragmentFitsMtu(SuiteOf(pkt), mtu, Cut(mtu, pkt, offs, n).frag, |pkt| - offs);
  }

  lemma {:induction false} CutsFitMtu(mtu: nat, pkt: seq<Byte>, offs: nat, n: nat)
    requires SaneMtu(mtu) && offs <= |pkt| && Fragmentable(mtu, pkt)
    ensures forall e :: e in Cuts(mtu, pkt, offs, n) ==> e.pkt == pkt && (FitsMtu(mtu, e) <==> RoomForHeader(mtu, pkt))
    decreases |pkt| - offs
  {
    hide Cuts, SuiteOf, PayloadLen, FlagOf, FitsMtu, RoomForHeader;
    ProgressUnlessHeaderOnly(SuiteOf(pkt), mtu, |pkt| - offs);
    CutsStep(mtu, pkt, offs, n);
    CutFitsMtu(mtu, pkt, offs, n);
    var e := Cut(mtu, pkt, offs, n);
    if !Done(e) {
      CutsFitMtu(mtu, pkt, e.End(), n + 1);
    }
  }

  // ----- runs of a sender -----

  datatype Event = Enq(pkt: seq<Byte>) | Cts

  function Act(s: Sender, ev: Event): (r: (Sender, seq<Sent>))
    requires SenderOk(s) && (ev.Enq? ==> Short(ev.pkt))
    ensures SenderOk(r.0)
  {
    match ev
    case Enq(p) => (Enqueue(s, p), [])
    case Cts => var r := Round(s); (r.0, if r.1.Some? then [r.1.value] else [])
  }

  predicate Feasible(evs: seq<Event>) {
    forall ev :: ev in evs && ev.Enq? ==> Short(ev.pkt)
  }

  /** All fragments sent in a run, rounds and arrivals of packets in any order. */
  function RunLog(s: Sender, evs: seq<Event>): seq<Sent>
    requires SenderOk(s) && Feasible(evs)
    decreases |evs|
  {
    if evs == [] then []
    else
      var r := Act(s, evs[0]);
      r.1 + RunLog(r.0, evs[1..])
  }

  /** The next fragment will continue the last one. */
  predicate Continues(s: Sender, prev: Option<Sent>) {
    if prev.None? || Done(prev.value) then s.bigpkt.Some? ==> s.sendoffs == 0
    else s.bigpkt == Some(prev.value.pkt) && s.sendoffs == prev.value.End() && SuiteOf(prev.value.pkt) != Other
  }

  function LastOf(log: seq<Sent>, prev: Option<Sent>): Option<Sent> {
    if log == [] then prev else Some(log[|log| - 1])
  }

  lemma GetNextContinues(s: Sender, n: nat, prev: Option<Sent>)
    requires SenderOk(s) && s.sendseq == Low32(n) && Continues(s, prev) && Busy(s)
    ensures var (t, e) := GetNext(s);
            && e.Some? && IsCut(e.value) && e.value.frag.seqno == n % SEQ_SPACE
            && t.sendseq == Low32(n + 1) && t.outq == s.outq && s.bigpkt == Some(e.value.pkt)
            && Continues(t, e) && (prev.Some? ==> Follows(prev.value, e.value))
  {
    hide PayloadLen, FlagOf;
    LowBits(n);
    assert s.bigpkt.value != [];
    CutIsCut(s.mtu, s.bigpkt.value, s.sendoffs, s.sendseq);
  }

  lemma ActContinues(s: Sender, ev: Event, n: nat, prev: Option<Sent>)
    requires SenderOk(s) && (ev.Enq? ==> Short(ev.pkt)) && s.sendseq == Low32(n) && Continues(s, prev)
    ensures var (t, log) := Act(s, ev);
            && WellFormed(log, n) && t.sendseq == Low32(n + |log|) && Continues(t, LastOf(log, prev))
            && (prev.Some? && log != [] ==> Follows(prev.value, log[0]))
  {
    hide IsCut, Follows, SuiteOf, GetNext;
    if ev.Cts? {
      BusySends(s);
      BusySends(Reset(s));
      if Busy(s) {
        GetNextContinues(s, n, prev);
      } else if Busy(Reset(s)) {
        GetNextContinues(Reset(s), n, prev);
      }
    }
  }

  lemma BusySends(s: Sender)
    requires SenderOk(s)
    ensures GetNext(s).1.Some? <==> Busy(s)
    ensures !Busy(s) ==> GetNext(s) == (s, None)
  {
    hide SuiteOf, Cut;
  }

  /** Whatever the order of arrivals and rounds, the fragments of a run follow one another as cut
      from whole packets, with consecutive numbers. */
  lemma {:induction false} RunForm(s: Sender, evs: seq<Event>, n: nat, prev: Option<Sent>)
    requires SenderOk(s) && Feasible(evs) && s.sendseq == Low32(n) && Continues(s, prev)
    ensures WellFormed(RunLog(s, evs), n)
    ensures prev.Some? && RunLog(s, evs) != [] ==> Follows(prev.value, RunLog(s, evs)[0])
    decreases |evs|
  {
    hide IsCut, Follows, Act, Continues;
    if evs != [] {
      var (t, log) := Act(s, evs[0]);
      ActContinues(s, evs[0], n, prev);
      RunForm(t, evs[1..], n + |log|, LastOf(log, prev));
      WellFormedAppend(log, RunLog(t, evs[1..]), n);
      assert RunLog(s, evs) == log + RunLog(t, evs[1..]);
    }
  }

  function NewSender(mtu: nat): Sender {
    Sender(mtu, [], None, 0, 0)
  }

  /** Nothing is sent but packets that were enqueued. */
  lemma {:induction false} RunSendsEnqueued(s: Sender, evs: seq<Event>, packets: set<seq<Byte>>)
    requires SenderOk(s) && Feasible(evs)
    requires forall p :: p in s.outq || s.bigpkt == Some(p) || Enq(p) in evs ==> p in packets
    ensures forall e :: e in RunLog(s, evs) ==> e.pkt in packets
    decreases |evs|
  {
    hide PayloadLen, SuiteOf, FlagOf;
    if evs != [] {
      var (t, log) := Act(s, evs[0]);
      assert evs[0] in evs;
      forall p | p in t.outq || t.bigpkt == Some(p) || Enq(p) in evs[1..] ensures p in packets {
      }
      RunSendsEnqueued(t, evs[1..], packets);
    }
  }
}
