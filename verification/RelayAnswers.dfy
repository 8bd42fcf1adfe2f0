/** Request and response over whole runs: how long a face waits, and what brings its answer. */
module RelayAnswers {
  import opened Options
  import opened NdnTlv
  import opened Matching
  import opened RelayState
  import opened RelayRuns
  import opened RelayTheorems

  /** A face waits for the data that an interest asks for. */
  ghost predicate Waits(s: State, from: nat, pkt: Interest) {
    exists e :: e in s.pit && WaitsFor(e, from, pkt)
  }

  predicate WaitsFor(e: PitEntry, from: nat, pkt: Interest) {
    Same(e.pkt, pkt) && from in Waiting(e.pending)
  }

  /** A step does not end the wait: neither does data arrive that answers the interest and is new,
      nor does the interest time out, nor is the face removed. */
  ghost predicate Spares(s: State, step: Step, from: nat, pkt: Interest) {
    match step
    case Receive(_, _, _, AnInterest(_), _) => true
    case Receive(_, _, _, SomeData(d), _) => !Matches(pkt, d) || exists c :: c in s.contents && c.data.buf == d.buf
    case Tick(now) =>
      && (forall e :: e in s.pit && Same(e.pkt, pkt) ==> now < e.lastUsed + 4 && e.retries <= 2)
      && (forall f :: f in s.faces && f.id == from ==> f.isStatic || now < f.lastUsed + 15)
    case Drop(i) => i < |s.faces| ==> s.faces[i].id != from
    case Configure(_, _, _) => true
  }

  // ----- interests -----

  lemma JoinedWaits(pit: seq<PitEntry>, j: nat, sender: nat, now: int, e: PitEntry, from: nat, pkt: Interest)
    requires j < |pit| && e in pit && WaitsFor(e, from, pkt)
    ensures exists r :: r in pit[j := Joined(pit[j], sender, now)] && WaitsFor(r, from, pkt)
  {
    hide Same, Append;
    var t := pit[j := Joined(pit[j], sender, now)];
    var i :| 0 <= i < |pit| && pit[i] == e;
    WaitingAppend(pit[j].pending, sender, now);
    assert t[i] in t && WaitsFor(t[i], from, pkt);
  }

  lemma InterestSpares(s: State, sender: nat, other: Interest, now: int, from: nat, pkt: Interest)
    requires Waits(s, from, pkt)
    ensures Waits(HandleInterest(s, sender, other, now), from, pkt)
  {
    hide Same, Propagated, Append, ForwardingOk, FindHit, FindSame, FindOrAppend;
    var t := HandleInterest(s, sender, other, now);
    var e :| e in s.pit && WaitsFor(e, from, pkt);
    var k := FindSame(s.pit, other);
    if t.pit != s.pit {
      var pit := if k < |s.pit| then s.pit else [PitEntry(other, Some(sender), [], now, 0)] + s.pit;
      var j := if k < |s.pit| then k else 0;
      JoinedWaits(pit, j, sender, now, e, from, pkt);
    }
  }

  // ----- data -----

  lemma {:induction false} UnmatchedExactly(pit: seq<PitEntry>, d: Data, e: PitEntry)
    ensures e in Unmatched(pit, d) <==> e in pit && !Matches(e.pkt, d)
  {
    hide Matches;
    if pit != [] {
      UnmatchedExactly(pit[1..], d, e);
    }
  }

  lemma DataPit(s: State, maxCache: int, d: Data, now: int)
    requires Inv(s)
    ensures HandleData(s, maxCache, d, now).pit == if Known(s.contents, d.buf) then s.pit else Unmatched(s.pit, d)
  {
    hide Known, Matches, ServePit, Unmatched, Inv, NoDup;
    InvAllPending(s);
    assert NoDup([]) by { NothingTwice(); }
    ServeIs(s.pit, d, []);
  }

  lemma DataSpares(s: State, maxCache: int, d: Data, now: int, from: nat, pkt: Interest)
    requires Inv(s) && Waits(s, from, pkt)
    ensures Waits(HandleData(s, maxCache, d, now), from, pkt) <==> !Matches(pkt, d) || Known(s.contents, d.buf)
  {
    hide Inv, Matches, Known, Same, HandleData, Unmatched;
    var t := HandleData(s, maxCache, d, now);
    DataPit(s, maxCache, d, now);
    forall e: PitEntry | Same(e.pkt, pkt) ensures e in Unmatched(s.pit, d) <==> e in s.pit && !Matches(pkt, d) {
      UnmatchedExactly(s.pit, d, e);
      SameMatchesSame(e.pkt, pkt, d);
    }
  }

  // ----- removed faces -----

  lemma {:induction false} WaitingBereft(pending: seq<Pending>, gone: set<nat>, f: nat)
    ensures f in Waiting(Bereft(pending, gone)) <==> f in Waiting(pending) && f !in gone
  {
    if pending != [] {
      WaitingBereft(pending[1..], gone, f);
      var rest := Bereft(pending[1..], gone);
      assert [] + rest == rest && ([pending[0]] + rest)[1..] == rest;
    }
  }

  lemma {:induction false} BereftOne(pending: seq<Pending>, f: nat)
    ensures Without(pending, f) == Bereft(pending, {f})
  {
    if pending != [] {
      BereftOne(pending[1..], f);
    }
  }

  lemma {:induction false} CleanPitExactly(pit: seq<PitEntry>, f: nat, r: PitEntry)
    ensures r in CleanPit(pit, f) <==> exists e :: e in pit && r == CleanEntry(e, f) && r.pending != []
  {
    hide CleanEntry;
    if pit != [] {
      CleanPitExactly(pit[1..], f, r);
      assert forall x :: x in pit <==> x == pit[0] || x in pit[1..];
    }
  }

  lemma DropSpares(s: State, i: nat, from: nat, pkt: Interest)
    requires i < |s.faces| && Waits(s, from, pkt)
    ensures Waits(RelayState.RemoveFace(s, i), from, pkt) <==> s.faces[i].id != from
  {
    hide Same, CleanPit, CleanFib, Without;
    var f, t := s.faces[i].id, RelayState.RemoveFace(s, i);
    forall e: PitEntry ensures from in Waiting(CleanEntry(e, f).pending) <==> from in Waiting(e.pending) && from != f {
      BereftOne(e.pending, f);
      WaitingBereft(e.pending, {f}, from);
    }
    if f != from {
      var e :| e in s.pit && WaitsFor(e, from, pkt);
      CleanPitExactly(s.pit, f, CleanEntry(e, f));
      assert WaitsFor(CleanEntry(e, f), from, pkt);
    } else {
      forall r | r in t.pit ensures !WaitsFor(r, from, pkt) {
        CleanPitExactly(s.pit, f, r);
      }
    }
  }

  // ----- ageing -----

  lemma OnlyOne(pit: seq<PitEntry>, a: PitEntry, b: PitEntry, pkt: Interest)
    requires NoneSame(Pkts(pit)) && a in pit && b in pit && Same(a.pkt, pkt) && Same(b.pkt, pkt)
    ensures a == b
  {
    var i :| 0 <= i < |pit| && pit[i] == a;
    var j :| 0 <= j < |pit| && pit[j] == b;
    hide Same;
    PktsAt(pit, i);
    PktsAt(pit, j);
    SameBoth(a.pkt, b.pkt, pkt);
  }

  lemma SameBoth(a: Interest, b: Interest, pkt: Interest)
    requires Same(a, pkt) && Same(b, pkt)
    ensures Same(a, b) && Same(b, a)
  {
  }

  lemma AgedPit(s: State, now: int, r: PitEntry)
    requires Inv(s)
    ensures r in RelayState.Age(s, now).pit <==> exists e :: e in s.pit && AgesTo(e, ExpiredIds(s.faces, now), now, r)
  {
    hide Inv, AllPending, AgePit, AgeFaces, Survivors, AgesTo, Retransmitted;
    InvAllPending(s);
    AgeAllPending(s.pit, now);
    AgeFacesPit(AgeLists(s, now), 0, now);
    SurvivorsExactly(s.pit, ExpiredIds(s.faces, now), now, r);
    assert s.faces[0..] == s.faces;
  }

  lemma SurvivorWaits(e: PitEntry, gone: set<nat>, now: int, r: PitEntry, from: nat, pkt: Interest)
    requires AgesTo(e, gone, now, r)
    ensures WaitsFor(r, from, pkt) <==> WaitsFor(e, from, pkt) && from !in gone
    ensures !TimedOut(e, now) && r.pkt == e.pkt
  {
    hide Same;
    WaitingBereft(e.pending, gone, from);
  }

  lemma WaitingSurvives(e: PitEntry, gone: set<nat>, now: int, from: nat, pkt: Interest)
    requires WaitsFor(e, from, pkt) && !TimedOut(e, now) && from !in gone
    ensures AgesTo(e, gone, now, Survivor(e.(retries := e.retries + 1), gone))
  {
    hide Same;
    WaitingBereft(e.pending, gone, from);
  }

  lemma TickSpares(s: State, now: int, from: nat, pkt: Interest)
    ensures Spares(s, Tick(now), from, pkt)
       <==> (forall e :: e in s.pit && Same(e.pkt, pkt) ==> !TimedOut(e, now)) && from !in ExpiredIds(s.faces, now)
  {
    hide Same, ExpiredIds;
    ExpiredIdsExactly(s.faces, now, from);
  }

  lemma AgeSpares(s: State, now: int, from: nat, pkt: Interest)
    requires Inv(s) && Waits(s, from, pkt)
    ensures Waits(RelayState.Age(s, now), from, pkt) <==> Spares(s, Tick(now), from, pkt)
  {
    var t, gone := RelayState.Age(s, now), ExpiredIds(s.faces, now);
    assert NoneSame(Pkts(s.pit));
    hide Inv, NoneSame, Same, TimedOut, ExpiredIds, RelayState.Age, AgesTo, Survivor, WaitsFor, Spares;
    TickSpares(s, now, from, pkt);
    var e :| e in s.pit && WaitsFor(e, from, pkt);
    assert Same(e.pkt, pkt) by { WaitsForSame(e, from, pkt); }
    forall x | x in s.pit && Same(x.pkt, pkt) ensures x == e {
      OnlyOne(s.pit, x, e, pkt);
    }
    if !TimedOut(e, now) && from !in gone {
      var r := Survivor(e.(retries := e.retries + 1), gone);
      WaitingSurvives(e, gone, now, from, pkt);
      SurvivorWaits(e, gone, now, r, from, pkt);
      AgedPit(s, now, r);
    } else {
      forall r | r in t.pit ensures !WaitsFor(r, from, pkt) {
        AgedPit(s, now, r);
        var x :| x in s.pit && AgesTo(x, gone, now, r);
        SurvivorWaits(x, gone, now, r, from, pkt);
        if WaitsFor(x, from, pkt) {
          WaitsForSame(x, from, pkt);
        }
      }
    }
  }

  lemma WaitsForSame(e: PitEntry, from: nat, pkt: Interest)
    requires WaitsFor(e, from, pkt)
    ensures Same(e.pkt, pkt)
  {
  }

  // ----- every step -----

  /** A face goes on waiting exactly if the step spares it. */
  lemma StepSpares(s: State, maxCache: int, step: Step, from: nat, pkt: Interest)
    requires Inv(s) && Waits(s, from, pkt)
    ensures Waits(Apply(s, maxCache, step), from, pkt) <==> Spares(s, step, from, pkt)
  {
    hide Inv, WaitsFor, Matches, Same;
    hide FaceFor, HandleInterest, HandleData, RelayState.Age, RelayState.RemoveFace;
    match step {
      case Receive(ifndx, peer, reflect, msg, now) =>
        var (sender, t) := FaceFor(s, ifndx, peer, reflect, now);
        FaceForKeeps(s, ifndx, peer, reflect, now);
        match msg {
          case AnInterest(other) => InterestSpares(t, sender, other, now, from, pkt);
          case SomeData(d) =>
            KnownIs(t.contents, d.buf);
            DataSpares(t, maxCache, d, now, from, pkt);
        }
      case Tick(now) => AgeSpares(s, now, from, pkt);
      case Drop(i) => if i < |s.faces| { DropSpares(s, i, from, pkt); }
      case Configure(_, _, _) =>
    }
  }

  // ----- whole runs -----

  /** The state after some more steps. */
  function Continue(s: State, maxCache: int, steps: seq<Step>): State
    decreases |steps|
  {
    if steps == [] then s else Continue(Apply(s, maxCache, steps[0]), maxCache, steps[1..])
  }

  // ----- frames of several packets -----

  lemma {:induction false} FoundAgain(faces: seq<Face>, ifndx: int, peer: Option<nat>, now: int)
    ensures var k := FindFace(faces, ifndx, peer);
            k < |faces| ==> FindFace(faces[k := faces[k].(lastUsed := now)], ifndx, peer) == k
  {
    var k := FindFace(faces, ifndx, peer);
    if faces != [] && !IsFace(faces[0], ifndx, peer) && k < |faces| {
      FoundAgain(faces[1..], ifndx, peer, now);
      var f := faces[k].(lastUsed := now);
      assert faces[k := f][1..] == faces[1..][k - 1 := f];
    }
  }

  /** The face of a frame is found again for its next packet, and nothing changes. */
  lemma SameFaceAgain(s: State, ifndx: int, peer: Option<nat>, reflect: bool, now: int, t: State)
    requires peer.Some? ==> ifndx != -1
    requires var t0 := FaceFor(s, ifndx, peer, reflect, now).1; t.faces == t0.faces && t.nextFace == t0.nextFace
    ensures FaceFor(t, ifndx, peer, reflect, now) == (FaceFor(s, ifndx, peer, reflect, now).0, t)
  {
    var k := FindFace(s.faces, ifndx, peer);
    FoundAgain(s.faces, ifndx, peer, now);
    if k < |s.faces| {
      var faces := if peer.None? then s.faces else s.faces[k := s.faces[k].(lastUsed := now)];
      assert t.faces == faces && FindFace(faces, ifndx, peer) == k;
      assert peer.Some? ==> faces[k := faces[k].(lastUsed := now)] == faces;
    } else {
      assert IsFace(t.faces[0], ifndx, peer);
      assert t.faces[0 := t.faces[0].(lastUsed := now)] == t.faces;
    }
  }

  lemma HandleFaces(s: State, maxCache: int, from: nat, msg: Message, now: int)
    ensures var t := Handle(s, maxCache, from, msg, now); t.faces == s.faces && t.nextFace == s.nextFace
  {
    hide FindHit, FindSame, Propagated, Append, ForwardingOk, FindOrAppend, ServePit, Known;
  }

  /** The packets of a frame as steps of their own. */
  function Receives(ifndx: int, peer: Option<nat>, reflect: bool, msgs: seq<Message>, now: int): seq<Step> {
    if msgs == [] then []
    else [Receive(ifndx, peer, reflect, msgs[0], now)] + Receives(ifndx, peer, reflect, msgs[1..], now)
  }

  /** A frame of several packets is the same as frames of one packet each, so that what holds of all
      runs holds of it. */
  lemma {:induction false} FrameIsSteps(s: State, maxCache: int, ifndx: int, peer: Option<nat>, reflect: bool,
                                        msgs: seq<Message>, now: int)
    requires msgs != [] && (peer.Some? ==> ifndx != -1)
    ensures var (from, t) := FaceFor(s, ifndx, peer, reflect, now);
            HandleAll(t, maxCache, from, msgs, now) == Continue(s, maxCache, Receives(ifndx, peer, reflect, msgs, now))
    decreases |msgs|
  {
    hide FaceFor, Handle;
    var (from, t) := FaceFor(s, ifndx, peer, reflect, now);
    var u := Handle(t, maxCache, from, msgs[0], now);
    var first, rest := Receive(ifndx, peer, reflect, msgs[0], now), Receives(ifndx, peer, reflect, msgs[1..], now);
    assert ([first] + rest)[1..] == rest;
    assert Apply(s, maxCache, first) == u;
    HandleFaces(t, maxCache, from, msgs[0], now);
    SameFaceAgain(s, ifndx, peer, reflect, now, u);
    if |msgs| > 1 {
      FrameIsSteps(u, maxCache, ifndx, peer, reflect, msgs[1..], now);
    }
  }

  // ----- waiting over whole runs -----

  ghost predicate AllSpare(s: State, maxCache: int, steps: seq<Step>, from: nat, pkt: Interest)
    decreases |steps|
  {
    steps == []
    || (Spares(s, steps[0], from, pkt) && AllSpare(Apply(s, maxCache, steps[0]), maxCache, steps[1..], from, pkt))
  }

  lemma {:induction false} GoesOnWaiting(s: State, maxCache: int, steps: seq<Step>, from: nat, pkt: Interest)
    requires Inv(s) && Waits(s, from, pkt) && AllSpare(s, maxCache, steps, from, pkt)
    ensures var t := Continue(s, maxCache, steps); Inv(t) && Waits(t, from, pkt)
    decreases |steps|
  {
    hide Inv, Waits, Spares, Apply;
    if steps != [] {
      ApplyKeeps(s, maxCache, steps[0]);
      StepSpares(s, maxCache, steps[0], from, pkt);
      GoesOnWaiting(Apply(s, maxCache, steps[0]), maxCache, steps[1..], from, pkt);
    }
  }

  /** Data that answers a waiting face is new to the store, if its bytes say what it is. */
  lemma AwaitedIsNew(s: State, from: nat, pkt: Interest, d: Data)
    requires Inv(s) && Waits(s, from, pkt) && d.suite == pkt.suite && Matches(pkt, d)
    requires forall c :: c in s.contents && c.data.buf == d.buf ==> c.data == d
    ensures !Known(s.contents, d.buf)
  {
    var e :| e in s.pit && WaitsFor(e, from, pkt);
    PktsIn(s.pit, e);
    SameMatchesSame(e.pkt, pkt, d);
    assert Apart(Pkts(s.pit), s.contents);
    hide Inv, Matches;
    forall c | c in s.contents ensures c.data.buf != d.buf {
      assert !Hit(e.pkt, c);
    }
  }

  /** Data that a face waits for is sent to it, exactly once, and no interest it answers stays. */
  lemma Answer(s: State, maxCache: int, d: Data, now: int, from: nat, pkt: Interest)
    requires Inv(s) && Waits(s, from, pkt) && Matches(pkt, d) && !Known(s.contents, d.buf)
    ensures var t := HandleData(s, maxCache, d, now);
            s.trace <= t.trace && AnswersTo(t.trace[|s.trace|..], from) == 1 && forall e :: e in t.pit ==> !Matches(e.pkt, d)
  {
    KnownIs(s.contents, d.buf);
    hide Inv, Matches, Known, Same, HandleData, AnswersTo, Unmatched;
    var e :| e in s.pit && WaitsFor(e, from, pkt);
    SameMatchesSame(e.pkt, pkt, d);
    assert Wanted(s.pit, d, from);
    InvAllPending(s);
    UnmatchedAll(s.pit, d);
    ServesExactly(s, maxCache, d, now, from);
    forall x ensures x in Unmatched(s.pit, d) ==> !Matches(x.pkt, d) {
      UnmatchedExactly(s.pit, d, x);
    }
  }

  /** An interest that is neither refused nor answered at once makes its face wait. */
  lemma AskedWaits(s: State, from: nat, pkt: Interest, now: int)
    requires !Refused(s, pkt) && FindHit(s.contents, pkt) == |s.contents|
    ensures Waits(HandleInterest(s, from, pkt, now), from, pkt)
  {
    hide Refused, FindHit, HandleInterest, Propagated, Same;
    InterestOutcome(s, from, pkt, now);
    var t := HandleInterest(s, from, pkt, now);
    var e :| e in t.pit && Same(e.pkt, pkt) && from in Waiting(e.pending);
    assert WaitsFor(e, from, pkt);
  }

  /** Request and response: an interest is kept pending; whatever arrives, ages, goes or comes in
      between without ending the wait; then data that answers the interest, from anywhere, is sent
      exactly once to the face that the interest came from. */
  lemma AnswerComesBack(s: State, maxCache: int, ask: Step, steps: seq<Step>, answer: Step)
    requires Inv(s) && ask.Receive? && ask.msg.AnInterest? && answer.Receive? && answer.msg.SomeData?
    requires !Refused(s, ask.msg.pkt) && FindHit(s.contents, ask.msg.pkt) == |s.contents|
    requires var from := FaceFor(s, ask.ifndx, ask.peer, ask.reflect, ask.now).0;
             AllSpare(Apply(s, maxCache, ask), maxCache, steps, from, ask.msg.pkt)
    requires Matches(ask.msg.pkt, answer.msg.data)
    requires !Known(Continue(Apply(s, maxCache, ask), maxCache, steps).contents, answer.msg.data.buf)
    ensures var from := FaceFor(s, ask.ifndx, ask.peer, ask.reflect, ask.now).0;
            var t := Continue(Apply(s, maxCache, ask), maxCache, steps);
            var u := Apply(t, maxCache, answer);
            t.trace <= u.trace && AnswersTo(u.trace[|t.trace|..], from) == 1
            && forall e :: e in u.pit ==> !Matches(e.pkt, answer.msg.data)
  {
    hide Inv, Waits, Matches, Known, Refused, FindHit, FaceFor, HandleInterest, HandleData, AnswersTo, AllSpare, Continue;
    var pkt, d := ask.msg.pkt, answer.msg.data;
    var (from, s0) := FaceFor(s, ask.ifndx, ask.peer, ask.reflect, ask.now);
    FaceForKeeps(s, ask.ifndx, ask.peer, ask.reflect, ask.now);
    assert Refused(s0, pkt) == Refused(s, pkt) by { SameRefusals(s, s0, pkt); }
    AskedWaits(s0, from, pkt, ask.now);
    ApplyKeeps(s, maxCache, ask);
    var s1 := Apply(s, maxCache, ask);
    GoesOnWaiting(s1, maxCache, steps, from, pkt);
    var t := Continue(s1, maxCache, steps);
    FaceForKeeps(t, answer.ifndx, answer.peer, answer.reflect, answer.now);
    var t0 := FaceFor(t, answer.ifndx, answer.peer, answer.reflect, answer.now).1;
    assert Waits(t0, from, pkt) by { SamePitWaits(t, t0, from, pkt); }
    Answer(t0, maxCache, d, answer.now, from, pkt);
  }

  lemma SameRefusals(s: State, t: State, pkt: Interest)
    requires s.nonces == t.nonces && s.contents == t.contents
    ensures Refused(s, pkt) == Refused(t, pkt)
  {
  }

  lemma SamePitWaits(s: State, t: State, from: nat, pkt: Interest)
    requires s.pit == t.pit
    ensures Waits(s, from, pkt) == Waits(t, from, pkt)
  {
  }
}
