/** What the steps of a relay mean for its neighbours: where interests go, when they are refused, and
    which face stands for which peer. */
module RelayLaws {
  import opened Options
  import opened NdnTlv
  import opened Matching
  import opened RelayState
  import opened RelayRuns
  import opened RelayTheorems

  // ----- what holds in every reachable state -----

  /** The invariants, one by one. */
  lemma InvariantsMean(s: State)
    requires Inv(s)
    ensures s.contentcnt == |s.contents|
    ensures forall e, c :: e in s.pit && c in s.contents ==> !(c.data.suite == e.pkt.suite && Matches(e.pkt, c.data))
    ensures forall i, j | 0 <= i < j < |s.pit| :: !Same(s.pit[i].pkt, s.pit[j].pkt)
    ensures forall e :: e in s.pit ==> e.pending != [] && NoDup(Waiting(e.pending))
    ensures forall e, f :: e in s.pit && (f in Waiting(e.pending) || e.from == Some(f)) ==> exists g :: g in s.faces && g.id == f
    ensures forall r :: r in s.fib ==> exists g :: g in s.faces && g.id == r.face
    ensures forall i, j | 0 <= i < j < |s.faces| :: s.faces[i].id != s.faces[j].id
  {
    hide Matches, Same, NoDup, Ids, Waiting;
    forall e | e in s.pit ensures e.pkt in Pkts(s.pit) && EntryOk(s.faces, e) {
      PktsIn(s.pit, e);
    }
    forall i, j | 0 <= i < j < |s.pit| ensures !Same(s.pit[i].pkt, s.pit[j].pkt) {
      PktsAt(s.pit, i);
      PktsAt(s.pit, j);
    }
    forall id | Listed(s.faces, id) ensures exists g :: g in s.faces && g.id == id {
      ListedFace(s.faces, id);
    }
    forall i, j | 0 <= i < j < |s.faces| ensures s.faces[i].id != s.faces[j].id {
      IdAt(s.faces, i);
      IdAt(s.faces, j);
      Differ(Ids(s.faces), i, j);
    }
  }

  lemma Differ(ids: seq<nat>, i: nat, j: nat)
    requires NoDup(ids) && i < j < |ids|
    ensures ids[i] != ids[j]
  {
  }

  lemma {:induction false} IdAt(faces: seq<Face>, i: nat)
    requires i < |faces|
    ensures |Ids(faces)| == |faces| && Ids(faces)[i] == faces[i].id
  {
    if |faces| > 1 {
      IdAt(faces[1..], if i > 0 then i - 1 else 0);
    }
  }

  lemma {:induction false} ListedFace(faces: seq<Face>, id: nat)
    requires Listed(faces, id)
    ensures exists g :: g in faces && g.id == id
  {
    if faces[0].id == id {
      assert faces[0] in faces;
    } else {
      ListedFace(faces[1..], id);
      var g :| g in faces[1..] && g.id == id;
      assert g in faces;
    }
  }

  // ----- refusal -----

  /** An interest is refused exactly if it is an NDN interest whose nonce is in the list, or if no
      content of its suite matches it and its scope or time to live keeps it here. */
  lemma RefusedExactly(s: State, pkt: Interest)
    ensures Refused(s, pkt)
       <==> (pkt.suite == Ndn && pkt.nonce.Some? && pkt.nonce.value in s.nonces)
            || ((forall c :: c in s.contents ==> !(c.data.suite == pkt.suite && Matches(pkt, c.data)))
                && ((pkt.suite == Ndn && pkt.scope < 3) || (pkt.suite == Iot && pkt.ttl == 0)))
  {
    hide Matches, FindHit;
    FindHitMisses(s.contents, pkt);
    ForwardingExactly(pkt);
  }

  /** The content that answers is the first one in the store. */
  lemma {:induction false} FirstHit(contents: seq<CsEntry>, pkt: Interest, k: nat)
    requires k < |contents|
    ensures FindHit(contents, pkt) == k <==> Hit(pkt, contents[k]) && forall j :: 0 <= j < k ==> !Hit(pkt, contents[j])
  {
    hide Hit;
    if Hit(pkt, contents[0]) {
    } else if k > 0 {
      FirstHit(contents[1..], pkt, k - 1);
      assert forall j :: 0 <= j < k - 1 ==> contents[1..][j] == contents[j + 1];
    }
  }

  // ----- where interests go -----

  lemma {:induction false} ReflectsExactly(faces: seq<Face>, id: nat)
    requires NoDup(Ids(faces))
    ensures Reflects(faces, id) <==> exists f :: f in faces && f.id == id && f.reflect
  {
    if faces != [] {
      var f, rest := faces[0], faces[1..];
      assert forall x :: x in faces <==> x == f || x in rest;
      assert NoDup(Ids(rest)) && f.id !in Ids(rest) by { FirstOnly(f.id, Ids(rest)); }
      ReflectsExactly(rest, id);
      forall x | x in rest ensures x.id in Ids(rest) {
        IdListed(rest, x);
      }
    }
  }

  lemma FirstOnly(id: nat, ids: seq<nat>)
    requires NoDup([id] + ids)
    ensures NoDup(ids) && id !in ids
  {
    var all := [id] + ids;
    forall k | 0 <= k < |ids| ensures ids[k] != id && ids[k] == all[k + 1] {
      assert all[0] != all[k + 1];
    }
    forall a, b | 0 <= a < b < |ids| ensures ids[a] != ids[b] {
      assert all[a + 1] != all[b + 1];
    }
  }

  lemma {:induction false} IdListed(faces: seq<Face>, f: Face)
    requires f in faces
    ensures f.id in Ids(faces)
  {
    if f != faces[0] {
      IdListed(faces[1..], f);
    }
  }

  /** An interest is sent to a face. */
  ghost predicate SentTo(s: State, t: State, f: nat, pkt: Interest) {
    s.trace <= t.trace && Forwarded(f, pkt) in t.trace[|s.trace|..]
  }

  /** A face has a route for an interest: one of its suite, for a prefix of its name. */
  ghost predicate HasRoute(s: State, f: nat, pkt: Interest) {
    exists r :: r in s.fib && r.face == f && r.suite == pkt.suite && r.prefix.comps <= pkt.name.comps
  }

  lemma TakesRoute(s: State, f: nat, e: PitEntry)
    requires Inv(s)
    ensures (exists r :: r in s.fib && r.face == f && Takes(s.faces, r, e))
       <==> HasRoute(s, f, e.pkt)
            && (e.from == Some(f) ==> exists g :: g in s.faces && g.id == f && g.reflect)
  {
    InvFaces(s);
    hide Inv;
    ReflectsExactly(s.faces, f);
    if HasRoute(s, f, e.pkt) && (e.from == Some(f) ==> Reflects(s.faces, f)) {
      var r :| r in s.fib && r.face == f && r.suite == e.pkt.suite && r.prefix.comps <= e.pkt.name.comps;
      assert Takes(s.faces, r, e);
    }
  }

  /** An interest that is new to the relay is kept with a fresh time and no retries, waiting for the
      face that it came from. It is sent to exactly the faces with a route for it, but back to where
      it came from only if that face reflects. */
  lemma NewInterestSpreads(s: State, from: nat, pkt: Interest, now: int, f: nat)
    requires Inv(s) && !Refused(s, pkt) && NothingSame(s.pit, pkt)
    requires forall c :: c in s.contents ==> !Hit(pkt, c)
    ensures var t := HandleInterest(s, from, pkt, now);
            && t.pit == [PitEntry(pkt, Some(from), [Pending(from, now)], now, 0)] + s.pit
            && (SentTo(s, t, f, pkt)
                <==> HasRoute(s, f, pkt) && (f == from ==> exists g :: g in s.faces && g.id == f && g.reflect))
  {
    hide Inv, Hit, Same, Refused, FindHit, Propagated, HandleInterest, HasRoute, NothingSame;
    FindHitMisses(s.contents, pkt);
    InterestOutcome(s, from, pkt, now);
    var t, asked := HandleInterest(s, from, pkt, now), s.trace + [Asked(from)];
    var e := PitEntry(pkt, Some(from), [Pending(from, now)], now, 0);
    var out := Propagated(s.faces, s.fib, e);
    assert t.trace[|s.trace|..] == [Asked(from)] + out;
    PropagatedExactly(s.faces, s.fib, e, f);
    TakesRoute(s, f, e);
  }

  /** An interest like a pending one is sent again, as the pending one and not back to where that one
      came from. */
  lemma SameInterestSpreads(s: State, from: nat, pkt: Interest, now: int, f: nat) returns (e: PitEntry)
    requires Inv(s) && !Refused(s, pkt) && !NothingSame(s.pit, pkt)
    requires forall c :: c in s.contents ==> !Hit(pkt, c)
    ensures var t := HandleInterest(s, from, pkt, now);
            && Rejoins(s.pit, t.pit, e, from, now) && Same(e.pkt, pkt) && from in Waiting(e.pending)
            && (SentTo(s, t, f, e.pkt)
                <==> HasRoute(s, f, e.pkt) && (e.from == Some(f) ==> exists g :: g in s.faces && g.id == f && g.reflect))
  {
    hide Inv, Hit, Same, Refused, FindHit, Propagated, HandleInterest, HasRoute, NothingSame, Rejoins;
    FindHitMisses(s.contents, pkt);
    InterestOutcome(s, from, pkt, now);
    var t, asked := HandleInterest(s, from, pkt, now), s.trace + [Asked(from)];
    e :| e in t.pit && Same(e.pkt, pkt) && from in Waiting(e.pending)
         && t.trace == asked + Propagated(s.faces, s.fib, e) && Rejoins(s.pit, t.pit, e, from, now);
    var out := Propagated(s.faces, s.fib, e);
    assert t.trace[|s.trace|..] == [Asked(from)] + out;
    PropagatedExactly(s.faces, s.fib, e, f);
    TakesRoute(s, f, e);
  }

  // ----- what is sent again -----

  lemma {:induction false} RetransmittedExactly(faces: seq<Face>, fib: seq<Route>, pit: seq<PitEntry>, now: int, f: nat, pkt: Interest)
    ensures Forwarded(f, pkt) in Retransmitted(faces, fib, pit, now)
       <==> exists e :: e in pit && e.pkt == pkt && !TimedOut(e, now) && Forwarded(f, pkt) in Propagated(faces, fib, e)
  {
    hide TimedOut, Propagated;
    if pit != [] {
      RetransmittedExactly(faces, fib, pit[1..], now, f, pkt);
      assert forall x :: x in pit <==> x == pit[0] || x in pit[1..];
      SpreadsItself(faces, fib, pit[0], f, pkt);
    }
  }

  lemma {:induction false} SpreadsItself(faces: seq<Face>, fib: seq<Route>, e: PitEntry, f: nat, pkt: Interest)
    ensures Forwarded(f, pkt) in Propagated(faces, fib, e) ==> pkt == e.pkt
  {
    hide Takes;
    if fib != [] {
      SpreadsItself(faces, fib[1..], e, f, pkt);
    }
  }

  lemma {:induction false} AgeFacesTrace(s: State, i: nat, now: int)
    requires i <= |s.faces|
    ensures AgeFaces(s, i, now).trace == s.trace
    decreases |s.faces| - i
  {
    hide Expired, CleanPit, CleanFib;
    if i < |s.faces| {
      if Expired(s.faces[i], now) {
        AgeFacesTrace(RelayState.RemoveFace(s, i), i, now);
      } else {
        AgeFacesTrace(s, i + 1, now);
      }
    }
  }

  /** While a relay ages, exactly the interests that are not 4 seconds old and have been sent again at
      most twice are sent again, to the faces with a route for them. */
  lemma SentAgain(s: State, now: int, f: nat, pkt: Interest)
    requires Inv(s)
    ensures SentTo(s, RelayState.Age(s, now), f, pkt)
       <==> exists e :: e in s.pit && e.pkt == pkt && now < e.lastUsed + 4 && e.retries <= 2 && HasRoute(s, f, pkt)
                        && (e.from == Some(f) ==> exists g :: g in s.faces && g.id == f && g.reflect)
  {
    hide Inv, AgeFaces, Retransmitted, Propagated, HasRoute, AgePit, AgeContents;
    AgeFacesTrace(AgeLists(s, now), 0, now);
    var t, out := RelayState.Age(s, now), Retransmitted(s.faces, s.fib, s.pit, now);
    assert t.trace == s.trace + out && t.trace[|s.trace|..] == out;
    RetransmittedExactly(s.faces, s.fib, s.pit, now, f, pkt);
    forall e | e in s.pit && e.pkt == pkt
      ensures Forwarded(f, pkt) in Propagated(s.faces, s.fib, e)
         <==> HasRoute(s, f, pkt) && (e.from == Some(f) ==> exists g :: g in s.faces && g.id == f && g.reflect)
    {
      PropagatedExactly(s.faces, s.fib, e, f);
      TakesRoute(s, f, e);
    }
  }

  // ----- routes -----

  /** A configured route takes the interests of its suite below its prefix, and its face stays. */
  lemma RouteServes(s: State, suite: Suite, prefix: Name, i: nat, pkt: Interest, now: int)
    requires i < |s.faces| && pkt.suite == suite && prefix.comps <= pkt.name.comps
    ensures var t := RelayState.AddRoute(s, suite, prefix, i);
            && HasRoute(t, s.faces[i].id, pkt)
            && t.faces == s.faces[i := t.faces[i]] && t.faces[i] == s.faces[i].(isStatic := true)
            && (forall f :: HasRoute(s, f, pkt) ==> HasRoute(t, f, pkt))
            && (forall f :: f != s.faces[i].id && HasRoute(t, f, pkt) ==> HasRoute(s, f, pkt))
  {
    var t := RelayState.AddRoute(s, suite, prefix, i);
    assert t.fib[0] in t.fib;
  }

  /** With a face exactly its routes go. */
  lemma {:induction false} RoutesGo(fib: seq<Route>, f: nat, r: Route)
    ensures r in CleanFib(fib, f) <==> r in fib && r.face != f
  {
    if fib != [] {
      RoutesGo(fib[1..], f, r);
    }
  }

  // ----- peers and faces -----

  /** The face of a peer, or of the local client. */
  predicate StandsFor(f: Face, peer: Option<nat>) {
    if peer.None? then f.ifndx == -1 else f.peer == peer
  }

  /** No two faces stand for the same peer, and at most one for the local client, which has no peer. */
  ghost predicate OneFaceEach(faces: seq<Face>) {
    && (forall f :: f in faces && f.ifndx == -1 ==> f.peer.None?)
    && (forall i, j | 0 <= i < j < |faces| ::
          !(faces[i].ifndx == -1 && faces[j].ifndx == -1) && !(faces[i].peer.Some? && faces[i].peer == faces[j].peer))
  }

  /** Peers come in through an interface. */
  predicate FromNetwork(step: Step) {
    step.Receive? && step.peer.Some? ==> step.ifndx >= 0
  }

  lemma {:induction false} FindFaceExactly(faces: seq<Face>, ifndx: int, peer: Option<nat>)
    requires peer.Some? ==> ifndx >= 0
    ensures var k := FindFace(faces, ifndx, peer);
            && (k < |faces| ==> StandsFor(faces[k], peer))
            && (k == |faces| ==> forall f :: f in faces ==> !StandsFor(f, peer))
  {
    if faces != [] && !IsFace(faces[0], ifndx, peer) {
      FindFaceExactly(faces[1..], ifndx, peer);
      assert forall f :: f in faces <==> f == faces[0] || f in faces[1..];
    }
  }

  /** What comes from a peer comes in on the face that stands for the peer, with its time renewed, so
      that the face does not expire at once; a new face has a new id. Other faces stay as they are. */
  lemma FaceOfPeer(s: State, ifndx: int, peer: Option<nat>, reflect: bool, now: int)
    requires peer.Some? ==> ifndx >= 0
    ensures var (from, t) := FaceFor(s, ifndx, peer, reflect, now);
            exists k :: 0 <= k < |t.faces| && t.faces[k].id == from && StandsFor(t.faces[k], peer)
              && (peer.Some? ==> t.faces[k].lastUsed == now && !Expired(t.faces[k], now))
              && if from == s.nextFace + 1 && t.faces[1..] == s.faces then
                   t.faces[k].lastUsed == now && t.faces[k].ifndx == (if peer.Some? then ifndx else -1)
                   && t.faces[k].reflect == (reflect && ifndx >= 0) && !t.faces[k].isStatic
                 else
                   k < |s.faces| && s.faces[k].id == from
                   && t.faces == s.faces[k := s.faces[k].(lastUsed := t.faces[k].lastUsed)]
  {
    var (from, t) := FaceFor(s, ifndx, peer, reflect, now);
    FindFaceExactly(s.faces, ifndx, peer);
    var k := FindFace(s.faces, ifndx, peer);
    if k < |s.faces| {
      assert s.faces[k := s.faces[k]] == s.faces;
      assert t.faces == s.faces[k := s.faces[k].(lastUsed := t.faces[k].lastUsed)];
    } else {
      assert t.faces[1..] == s.faces;
    }
  }

  /** A peer without an interface gets a new face on the first interface of its family. */
  lemma FaceOnFirst(s: State, ifs: seq<Interface>, peer: nat, family: int, now: int, j: nat)
    requires j < |ifs| && ifs[j].family == family && forall i :: 0 <= i < j ==> ifs[i].family != family
    ensures FaceOrNone(s, ifs, -1, Some(peer), family, now)
         == (Some(s.nextFace + 1),
             s.(faces := [Face(s.nextFace + 1, j, Some(peer), ifs[j].reflect, false, now)] + s.faces, nextFace := s.nextFace + 1))
  {
    assert FirstOf(ifs, family) == j;
  }

  lemma NoFace(s: State, ifs: seq<Interface>, peer: nat, family: int, now: int)
    requires forall i :: i in ifs ==> i.family != family
    ensures FaceOrNone(s, ifs, -1, Some(peer), family, now) == (None, s)
  {
    assert FirstOf(ifs, family) == |ifs|;
  }

  lemma OneMoreFace(faces: seq<Face>, f: Face)
    requires OneFaceEach(faces) && (f.ifndx == -1 ==> f.peer.None?)
    requires forall g :: g in faces ==> !(f.ifndx == -1 && g.ifndx == -1) && !(f.peer.Some? && f.peer == g.peer)
    ensures OneFaceEach([f] + faces)
  {
    var all := [f] + faces;
    forall i, j | 0 <= i < j < |all|
      ensures !(all[i].ifndx == -1 && all[j].ifndx == -1) && !(all[i].peer.Some? && all[i].peer == all[j].peer)
    {
      assert all[j] == faces[j - 1] && faces[j - 1] in faces;
      if i > 0 {
        assert all[i] == faces[i - 1];
      }
    }
  }

  lemma FewerFaces(faces: seq<Face>, i: nat)
    requires OneFaceEach(faces) && i < |faces|
    ensures OneFaceEach(faces[..i] + faces[i + 1..])
  {
    var rest := faces[..i] + faces[i + 1..];
    forall k | 0 <= k < |rest| ensures rest[k] == faces[if k < i then k else k + 1] {
    }
    forall a, b | 0 <= a < b < |rest|
      ensures !(rest[a].ifndx == -1 && rest[b].ifndx == -1) && !(rest[a].peer.Some? && rest[a].peer == rest[b].peer)
    {
      assert rest[a] == faces[if a < i then a else a + 1] && rest[b] == faces[if b < i then b else b + 1];
    }
  }

  lemma {:induction false} AgedFaces(s: State, i: nat, now: int)
    requires i <= |s.faces| && OneFaceEach(s.faces)
    ensures OneFaceEach(AgeFaces(s, i, now).faces)
    decreases |s.faces| - i
  {
    hide Expired, CleanPit, CleanFib, OneFaceEach;
    if i < |s.faces| {
      if Expired(s.faces[i], now) {
        FewerFaces(s.faces, i);
        AgedFaces(RelayState.RemoveFace(s, i), i, now);
      } else {
        AgedFaces(s, i + 1, now);
      }
    }
  }

  lemma HandledFaces(s: State, maxCache: int, from: nat, msg: Message, now: int)
    ensures Handle(s, maxCache, from, msg, now).faces == s.faces
  {
    hide FindHit, FindSame, Propagated, Append, ForwardingOk, FindOrAppend, ServePit, Known;
  }

  lemma SameFaces(faces: seq<Face>, i: nat, f: Face)
    requires OneFaceEach(faces) && i < |faces| && f.ifndx == faces[i].ifndx && f.peer == faces[i].peer
    ensures OneFaceEach(faces[i := f])
  {
    assert faces[i] in faces;
  }

  lemma FaceForOne(s: State, ifndx: int, peer: Option<nat>, reflect: bool, now: int)
    requires OneFaceEach(s.faces) && (peer.Some? ==> ifndx >= 0)
    ensures OneFaceEach(FaceFor(s, ifndx, peer, reflect, now).1.faces)
  {
    var t := FaceFor(s, ifndx, peer, reflect, now).1;
    var k := FindFace(s.faces, ifndx, peer);
    FindFaceExactly(s.faces, ifndx, peer);
    if k < |s.faces| {
      SameFaces(s.faces, k, s.faces[k].(lastUsed := now));
    } else {
      OneMoreFace(s.faces, t.faces[0]);
    }
  }

  lemma StepOneFace(s: State, maxCache: int, step: Step)
    requires OneFaceEach(s.faces) && FromNetwork(step)
    ensures OneFaceEach(Apply(s, maxCache, step).faces)
  {
    hide OneFaceEach, FaceFor, Handle, AgeFaces, CleanPit, CleanFib;
    match step {
      case Receive(ifndx, peer, reflect, msg, now) =>
        var (from, t) := FaceFor(s, ifndx, peer, reflect, now);
        FaceForOne(s, ifndx, peer, reflect, now);
        HandledFaces(t, maxCache, from, msg, now);
      case Tick(now) => AgedFaces(AgeLists(s, now), 0, now);
      case Drop(i) => if i < |s.faces| { FewerFaces(s.faces, i); }
      case Configure(suite, prefix, i) => if i < |s.faces| { SameFaces(s.faces, i, s.faces[i].(isStatic := true)); }
    }
  }

  /** In every reachable state, different faces stand for different peers. */
  lemma {:induction false} OneFacePerPeer(maxCache: int, steps: seq<Step>)
    requires forall step :: step in steps ==> FromNetwork(step)
    ensures OneFaceEach(Run(maxCache, steps).faces)
  {
    hide Apply;
    if steps != [] {
      var init, last := steps[..|steps| - 1], steps[|steps| - 1];
      assert last in steps && forall step :: step in init ==> step in steps;
      OneFacePerPeer(maxCache, init);
      StepOneFace(Run(maxCache, init), maxCache, last);
    }
  }
}
