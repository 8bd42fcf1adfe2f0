/** The receiver of Begin-End fragments, over a network that loses, duplicates and reorders. */
module Reassembly {
  import opened Options
  import opened NdnTlv
  import opened NdnRoundTrip
  import opened FragWire
  import opened Fragmentation

  datatype Receiver = Receiver(defrag: Option<seq<Byte>>, recvseq: nat)

  /** One fragment is taken in; a whole frame may come out. The expected number is never masked. */
  function Receive(r: Receiver, f: Frag): (Receiver, Option<seq<Byte>>) {
    var defrag := if r.recvseq != f.seqno then None else r.defrag;
    var next := f.seqno + 1;
    match f.flag
    case Single => (Receiver(None, next), Some(f.payload))
    case First => (Receiver(Some(f.payload), next), None)
    case Last =>
      if defrag.None? then (Receiver(None, next), None)
      else (Receiver(None, next), Some(defrag.value + f.payload))
    case Mid =>
      if defrag.None? then (Receiver(None, next), None)
      else (Receiver(Some(defrag.value + f.payload), next), None)
  }

  // ----- an adversarial network -----

  /** What arrives: fragments of the log, any of them, any number of times, in any order. */
  predicate Schedule(log: seq<Sent>, arrivals: seq<nat>) {
    forall k | 0 <= k < |arrivals| :: arrivals[k] < |log|
  }

  function After(r: Receiver, log: seq<Sent>, arrivals: seq<nat>, k: nat): Receiver
    requires k <= |arrivals| && Schedule(log, arrivals)
  {
    if k == 0 then r
    else Receive(After(r, log, arrivals, k - 1), log[arrivals[k - 1]].frag).0
  }

  /** The frame that arrival number `k` completes. */
  function Delivered(r: Receiver, log: seq<Sent>, arrivals: seq<nat>, k: nat): Option<seq<Byte>>
    requires k < |arrivals| && Schedule(log, arrivals)
  {
    Receive(After(r, log, arrivals, k), log[arrivals[k]].frag).1
  }

  /** Two fragments of a log are mistaken for neighbours if their masked numbers are but they are not. */
  predicate Mistaken(a: nat, b: nat) {
    (a % SEQ_SPACE) + 1 == b % SEQ_SPACE && a + 1 != b
  }

  ghost predicate NeverMistaken(arrivals: seq<nat>) {
    forall k | 0 < k < |arrivals| :: !Mistaken(arrivals[k - 1], arrivals[k])
  }

  const NEW_RECEIVER := Receiver(None, 0)

  /** The buffer is the prefix of one packet up to the last fragment received, and that fragment is
      not the packet's last. */
  predicate HoldsPrefix(r: Receiver, last: Sent) {
    && r.recvseq == last.frag.seqno + 1
    && (r.defrag.Some? ==> !Done(last) && last.End() <= |last.pkt| && r.defrag.value == last.pkt[..last.End()])
  }

  lemma TakeCut(e: Sent, r: Receiver)
    requires IsCut(e)
    ensures e.frag.flag in {Single, First} ==> HoldsPrefix(Receive(r, e.frag).0, e)
    ensures e.frag.flag == Single ==> Receive(r, e.frag).1 == Some(e.pkt)
    ensures e.frag.flag == First ==> Receive(r, e.frag).1 == None
  {
    if e.frag.flag == Single {
      assert e.pkt[0..|e.pkt|] == e.pkt;
    }
  }

  lemma TakeNext(a: Sent, b: Sent, r: Receiver)
    requires IsCut(a) && IsCut(b) && HoldsPrefix(r, a)
    requires r.recvseq == b.frag.seqno ==> Follows(a, b)
    ensures HoldsPrefix(Receive(r, b.frag).0, b)
    ensures Receive(r, b.frag).1.Some? ==> Receive(r, b.frag).1 == Some(b.pkt)
  {
    if b.frag.flag in {Single, First} {
      TakeCut(b, r);
    } else if r.recvseq == b.frag.seqno && r.defrag.Some? {
      assert b.pkt == a.pkt && b.offs == a.End();
      assert b.pkt[..b.offs] + b.frag.payload == b.pkt[..b.End()];
      assert b.pkt[..|b.pkt|] == b.pkt;
    }
  }

  lemma TakeFirst(e: Sent)
    requires IsCut(e)
    ensures HoldsPrefix(Receive(NEW_RECEIVER, e.frag).0, e)
    ensures Receive(NEW_RECEIVER, e.frag).1.Some? ==> Receive(NEW_RECEIVER, e.frag).1 == Some(e.pkt)
  {
    if e.frag.flag in {Single, First} {
      TakeCut(e, NEW_RECEIVER);
    }
  }

  lemma ExpectsNext(r: Receiver, log: seq<Sent>, a: nat, b: nat)
    requires WellFormed(log, 0) && a < |log| && b < |log| && !Mistaken(a, b)
    requires HoldsPrefix(r, log[a]) && r.recvseq == log[b].frag.seqno
    ensures Follows(log[a], log[b])
  {
    hide IsCut, Follows;
    assert log[a].frag.seqno == a % SEQ_SPACE && log[b].frag.seqno == b % SEQ_SPACE;
  }

  lemma {:induction false} KeepsPrefix(log: seq<Sent>, arrivals: seq<nat>, k: nat)
    requires WellFormed(log, 0) && Schedule(log, arrivals) && NeverMistaken(arrivals) && k < |arrivals|
    ensures HoldsPrefix(After(NEW_RECEIVER, log, arrivals, k + 1), log[arrivals[k]])
    ensures var d := Delivered(NEW_RECEIVER, log, arrivals, k); d.Some? ==> d == Some(log[arrivals[k]].pkt)
  {
    hide IsCut, Receive, HoldsPrefix, Follows;
    var e := log[arrivals[k]];
    if k == 0 {
      TakeFirst(e);
    } else {
      KeepsPrefix(log, arrivals, k - 1);
      var a, r := arrivals[k - 1], After(NEW_RECEIVER, log, arrivals, k);
      assert !Mistaken(a, arrivals[k]);
      if r.recvseq == e.frag.seqno {
        ExpectsNext(r, log, a, arrivals[k]);
      }
      TakeNext(log[a], e, r);
    }
  }

  /** Safety: whatever the network does to the fragments of a run, the reassembly buffer is always
      the prefix of one unfinished packet up to the last fragment received, and each delivered frame
      is the enqueued packet that the completing fragment was cut from, as long as no two fragments
      that arrive one after the other are mistaken for neighbours. */
  lemma Safety(mtu: nat, evs: seq<Event>, arrivals: seq<nat>, k: nat)
    requires SaneMtu(mtu) && Feasible(evs)
    requires var log := RunLog(NewSender(mtu), evs); Schedule(log, arrivals) && k < |arrivals|
    requires NeverMistaken(arrivals)
    ensures var log := RunLog(NewSender(mtu), evs);
            var e, d := log[arrivals[k]], Delivered(NEW_RECEIVER, log, arrivals, k);
            && HoldsPrefix(After(NEW_RECEIVER, log, arrivals, k + 1), e)
            && Enq(e.pkt) in evs && (d.Some? ==> d == Some(e.pkt))
  {
    hide RunLog, After, Delivered, HoldsPrefix;
    var s := NewSender(mtu);
    RunForm(s, evs, 0, None);
    KeepsPrefix(RunLog(s, evs), arrivals, k);
    var packets := set ev | ev in evs && ev.Enq? :: ev.pkt;
    RunSendsEnqueued(s, evs, packets);
  }

  /** Sequence numbers that do not wrap are never mistaken. */
  lemma NoWrapNoMistake(log: seq<Sent>, arrivals: seq<nat>)
    requires Schedule(log, arrivals) && |log| <= SEQ_SPACE
    ensures NeverMistaken(arrivals)
  {
  }

  /** Nor are any numbers if no arrival is a whole sequence space away from its neighbour's place. */
  lemma ShortJumpsNoMistake(arrivals: seq<nat>)
    requires forall k | 0 < k < |arrivals| ::
               arrivals[k - 1] + 1 < arrivals[k] + SEQ_SPACE && arrivals[k] <= arrivals[k - 1] + SEQ_SPACE
    ensures NeverMistaken(arrivals)
  {
    forall k | 0 < k < |arrivals| ensures !Mistaken(arrivals[k - 1], arrivals[k]) {
      SameResidue(arrivals[k - 1], arrivals[k]);
    }
  }

  lemma SameResidue(a: nat, b: nat)
    requires a + 1 < b + SEQ_SPACE && b <= a + SEQ_SPACE
    ensures !Mistaken(a, b)
  {
    Multiples(a, b, SEQ_SPACE);
  }

  lemma Multiples(a: nat, b: nat, n: nat)
    requires n > 1 && a + 1 < b + n && b <= a + n
    ensures a % n + 1 == b % n ==> a + 1 == b
  {
    if a % n + 1 == b % n {
      var d := b / n - a / n;
      assert a == n * (a / n) + a % n && b == n * (b / n) + b % n;
      assert b - a - 1 == n * d;
      assert d == 0 by {
        assert d >= 1 ==> n * d >= n;
        assert d <= -1 ==> n * d + n <= 0;
      }
    }
  }

  // ----- a lossless link -----

  function AllFrames(r: Receiver, es: seq<Sent>): seq<seq<Byte>>
    decreases |es|
  {
    if es == [] then []
    else
      var (t, d) := Receive(r, es[0].frag);
      (if d.Some? then [d.value] else []) + AllFrames(t, es[1..])
  }

  function EndOf(r: Receiver, es: seq<Sent>): Receiver
    decreases |es|
  {
    if es == [] then r else EndOf(Receive(r, es[0].frag).0, es[1..])
  }

  /** The fragments from number `n` on stay inside one window of the sequence space. */
  predicate InWindow(n: nat, count: nat) {
    n % SEQ_SPACE + count <= SEQ_SPACE
  }

  lemma {:induction false} FramesAppend(r: Receiver, a: seq<Sent>, b: seq<Sent>)
    ensures AllFrames(r, a + b) == AllFrames(r, a) + AllFrames(EndOf(r, a), b)
    decreases |a|
  {
    if a == [] {
      assert a + b == b;
    } else {
      assert (a + b)[0] == a[0] && (a + b)[1..] == a[1..] + b;
      FramesAppend(Receive(r, a[0].frag).0, a[1..], b);
    }
  }

  /** The rest of a packet, its fragments numbered from `n` on, reaches a receiver that expects `n`
      and holds the part before; or one that has lost that part. */
  lemma {:induction false} RestArrives(mtu: nat, pkt: seq<Byte>, offs: nat, n: nat, r: Receiver)
    requires SaneMtu(mtu) && 0 < offs < |pkt| && Fragmentable(mtu, pkt) && n > 0
    requires r.recvseq == (n - 1) % SEQ_SPACE + 1
    requires r.defrag.Some? ==> r.defrag.value == pkt[..offs]
    ensures var es := Cuts(mtu, pkt, offs, n);
            AllFrames(r, es) == if r.defrag.Some? && InWindow(n - 1, |es| + 1) then [pkt] else []
    decreases |pkt| - offs
  {
    hide SuiteOf, PayloadLen, Cuts;
    CutsStep(mtu, pkt, offs, n);
    CutIsCut(mtu, pkt, offs, n);
    ProgressUnlessHeaderOnly(SuiteOf(pkt), mtu, |pkt| - offs);
    var e := Cut(mtu, pkt, offs, n);
    var (t, d) := Receive(r, e.frag);
    assert pkt[..offs] + e.frag.payload == pkt[..e.End()];
    if Done(e) {
      assert pkt[..|pkt|] == pkt;
      assert AllFrames(t, []) == [];
    } else {
      var rest := Cuts(mtu, pkt, e.End(), n + 1);
      assert ([e] + rest)[1..] == rest;
      RestArrives(mtu, pkt, e.End(), n + 1, t);
    }
  }

  lemma NotEmpty(mtu: nat, pkt: seq<Byte>)
    requires Fragmentable(mtu, pkt)
    ensures pkt != []
  {
  }

  /** A packet arrives, at any receiver, exactly if its fragments stay inside one window. */
  lemma PacketArrives(mtu: nat, pkt: seq<Byte>, n: nat, r: Receiver)
    requires SaneMtu(mtu) && Fragmentable(mtu, pkt)
    ensures var es := Cuts(mtu, pkt, 0, n);
            AllFrames(r, es) == if InWindow(n, |es|) then [pkt] else []
  {
    hide SuiteOf, PayloadLen, Cuts;
    assert pkt != [] by { NotEmpty(mtu, pkt); }
    CutsStep(mtu, pkt, 0, n);
    CutIsCut(mtu, pkt, 0, n);
    ProgressUnlessHeaderOnly(SuiteOf(pkt), mtu, |pkt|);
    var e := Cut(mtu, pkt, 0, n);
    var (t, d) := Receive(r, e.frag);
    assert pkt[0..e.End()] == pkt[..e.End()];
    if Done(e) {
      assert pkt[..|pkt|] == pkt;
      assert AllFrames(t, []) == [];
    } else {
      var rest := Cuts(mtu, pkt, e.End(), n + 1);
      assert ([e] + rest)[1..] == rest;
      RestArrives(mtu, pkt, e.End(), n + 1, t);
    }
  }

  /** The packets of a drained queue whose fragments do not straddle a wrap of the sequence numbers. */
  ghost function Intact(mtu: nat, queue: seq<seq<Byte>>, n: nat): seq<seq<Byte>>
    requires SaneMtu(mtu) && Sendables(mtu, queue)
  {
    if queue == [] || SuiteOf(queue[0]) == Other then []
    else
      var c := Cuts(mtu, queue[0], 0, n);
      (if InWindow(n, |c|) then [queue[0]] else []) + Intact(mtu, queue[1..], n + |c|)
  }

  lemma IntactStep(mtu: nat, queue: seq<seq<Byte>>, n: nat)
    requires SaneMtu(mtu) && Sendables(mtu, queue) && queue != [] && SuiteOf(queue[0]) != Other
    ensures Sendables(mtu, queue[1..]) && Fragmentable(mtu, queue[0])
    ensures var c := Cuts(mtu, queue[0], 0, n);
            && QueueCuts(mtu, queue, n) == c + QueueCuts(mtu, queue[1..], n + |c|)
            && Intact(mtu, queue, n) == (if InWindow(n, |c|) then [queue[0]] else []) + Intact(mtu, queue[1..], n + |c|)
    ensures queue[..Served(queue)] == [queue[0]] + queue[1..][..Served(queue[1..])]
  {
    hide SuiteOf, Cuts, InWindow;
    QueueStep(mtu, queue, n);
  }

  lemma NoneServed(mtu: nat, queue: seq<seq<Byte>>, n: nat)
    requires SaneMtu(mtu) && Sendables(mtu, queue)
    ensures queue == [] || SuiteOf(queue[0]) == Other ==> QueueCuts(mtu, queue, n) == []
    ensures QueueCuts(mtu, queue, n) == [] ==> Served(queue) == 0 && Intact(mtu, queue, n) == []
  {
    hide SuiteOf, Cuts;
  }

  /** On a lossless link that keeps the order, fragmenting and reassembling is the identity on the
      packets that stay inside a window, and loses exactly the others. */
  lemma {:induction false} LosslessLink(mtu: nat, queue: seq<seq<Byte>>, n: nat, r: Receiver)
    requires SaneMtu(mtu) && Sendables(mtu, queue)
    ensures AllFrames(r, QueueCuts(mtu, queue, n)) == Intact(mtu, queue, n)
    decreases |queue|
  {
    hide SuiteOf, Cuts, EndOf, InWindow, Intact, QueueCuts, Sendables;
    if queue == [] || SuiteOf(queue[0]) == Other {
      NoneServed(mtu, queue, n);
      assert AllFrames(r, []) == [];
    } else {
      hide AllFrames;
      IntactStep(mtu, queue, n);
      var c := Cuts(mtu, queue[0], 0, n);
      PacketArrives(mtu, queue[0], n, r);
      FramesAppend(r, c, QueueCuts(mtu, queue[1..], n + |c|));
      LosslessLink(mtu, queue[1..], n + |c|, EndOf(r, c));
    }
  }

  /** If the whole queue stays inside one window, all of it arrives. */
  lemma {:induction false} IntactIsAll(mtu: nat, queue: seq<seq<Byte>>, n: nat)
    requires SaneMtu(mtu) && Sendables(mtu, queue)
    requires InWindow(n, |QueueCuts(mtu, queue, n)|)
    ensures Intact(mtu, queue, n) == queue[..Served(queue)]
    decreases |queue|
  {
    hide SuiteOf, Cuts, InWindow, Intact, QueueCuts, Sendables, Served;
    NoneServed(mtu, queue, n);
    if QueueCuts(mtu, queue, n) != [] {
      IntactStep(mtu, queue, n);
      var c := Cuts(mtu, queue[0], 0, n);
      var q := QueueCuts(mtu, queue[1..], n + |c|);
      WindowParts(n, |c|, |q|);
      if q == [] {
        NoneServed(mtu, queue[1..], n + |c|);
      } else {
        IntactIsAll(mtu, queue[1..], n + |c|);
      }
    }
  }

  lemma WindowParts(n: nat, c: nat, q: nat)
    requires InWindow(n, c + q)
    ensures InWindow(n, c) && (q > 0 ==> InWindow(n + c, q))
  {
  }
}
