/** Whole runs of a relay: the invariants, flow balance, exact service, and the nonce window. */
module RelayTheorems {
  import opened Options
  import opened NdnTlv
  import opened Matching
  import opened RelayState
  import opened RelayRuns

  const EMPTY := State([], [], [], [], 0, [], 0, [])

  function Run(maxCache: int, steps: seq<Step>): State {
    if steps == [] then EMPTY else Apply(Run(maxCache, steps[..|steps| - 1]), maxCache, steps[|steps| - 1])
  }

  // ----- the invariants of every reachable state -----

  lemma {:induction false} FindFaceIn(faces: seq<Face>, ifndx: int, peer: Option<nat>)
    ensures var k := FindFace(faces, ifndx, peer); k < |faces| ==> Listed(faces, faces[k].id)
  {
    if faces != [] && !IsFace(faces[0], ifndx, peer) {
      FindFaceIn(faces[1..], ifndx, peer);
    }
  }

  lemma {:induction false} SameIdsOk(faces: seq<Face>, g: seq<Face>, e: PitEntry)
    requires EntryOk(faces, e) && forall id :: id in Ids(faces) ==> id in Ids(g)
    ensures EntryOk(g, e)
  {
    hide Ids, NoDup;
  }

  /** More faces do not invalidate anything. */
  lemma MoreFaces(s: State, t: State)
    requires Inv(s) && t.pit == s.pit && t.contents == s.contents && t.contentcnt == s.contentcnt
    requires forall id :: id in Ids(s.faces) ==> id in Ids(t.faces)
    requires NoDup(Ids(t.faces)) && forall id :: id in Ids(t.faces) ==> id <= t.nextFace
    requires forall r :: r in t.fib ==> r in s.fib || Listed(t.faces, r.face)
    ensures Inv(t)
  {
    hide Ids, NoDup, Apart, NoneSame, EntryOk;
    forall e | e in t.pit ensures EntryOk(t.faces, e) {
      SameIdsOk(s.faces, t.faces, e);
    }
  }

  lemma FaceForKeeps(s: State, ifndx: int, peer: Option<nat>, reflect: bool, now: int)
    requires Inv(s)
    ensures var (from, t) := FaceFor(s, ifndx, peer, reflect, now);
            Inv(t) && Listed(t.faces, from) && t.trace == s.trace && t.pit == s.pit && t.nonces == s.nonces
            && t.fib == s.fib && t.contents == s.contents
  {
    hide Inv, IsFace;
    var (from, t) := FaceFor(s, ifndx, peer, reflect, now);
    var k := FindFace(s.faces, ifndx, peer);
    FindFaceIn(s.faces, ifndx, peer);
    InvFaces(s);
    if k < |s.faces| {
      IdsUpdate(s.faces, k, s.faces[k].(lastUsed := now));
      MoreFaces(s, t);
    } else {
      assert t.faces[1..] == s.faces;
      assert Ids(t.faces) == [from] + Ids(s.faces);
      NewFirst(from, Ids(s.faces), s.nextFace);
      MoreFaces(s, t);
    }
  }

  lemma NewFirst(id: nat, ids: seq<nat>, bound: nat)
    requires NoDup(ids) && bound < id && forall x :: x in ids ==> x <= bound
    ensures NoDup([id] + ids)
  {
    var all := [id] + ids;
    forall a, b | 0 <= a < b < |all| ensures all[a] != all[b] {
      assert all[b] == ids[b - 1] && ids[b - 1] in ids;
    }
  }

  lemma InvFaces(s: State)
    requires Inv(s)
    ensures NoDup(Ids(s.faces)) && forall id :: id in Ids(s.faces) ==> id <= s.nextFace
    ensures forall r :: r in s.fib ==> Listed(s.faces, r.face)
  {
  }

  lemma AddRouteKeeps(s: State, suite: Suite, prefix: Name, i: nat)
    requires Inv(s) && i < |s.faces|
    ensures Inv(AddRoute(s, suite, prefix, i))
  {
    hide Inv;
    var t := AddRoute(s, suite, prefix, i);
    InvFaces(s);
    IdsUpdate(s.faces, i, s.faces[i].(isStatic := true));
    IdsSplit(s.faces, i);
    MoreFaces(s, t);
  }

  lemma ApplyKeeps(s: State, maxCache: int, step: Step)
    requires Inv(s)
    ensures Inv(Apply(s, maxCache, step))
  {
    hide Inv, FaceFor, HandleInterest, HandleData, RelayState.Age, RelayState.RemoveFace, RelayState.AddRoute;
    match step {
      case Receive(ifndx, peer, reflect, msg, now) =>
        var (from, t) := FaceFor(s, ifndx, peer, reflect, now);
        FaceForKeeps(s, ifndx, peer, reflect, now);
        match msg {
          case AnInterest(pkt) => HandleInterestKeeps(t, from, pkt, now);
          case SomeData(d) => HandleDataKeeps(t, maxCache, d, now);
        }
      case Tick(now) => AgeKeeps(s, now);
      case Drop(i) => if i < |s.faces| { RemoveFaceKeeps(s, i); }
      case Configure(suite, prefix, i) => if i < |s.faces| { AddRouteKeeps(s, suite, prefix, i); }
    }
  }

  /** In every reachable state: no stored content answers a pending interest of its suite; pending
      interests are pairwise different; each waits for at least one face, for each once; every face
      named in PIT or FIB is in the face list; and the content count is the length of the store. */
  lemma {:induction false} RunKeeps(maxCache: int, steps: seq<Step>)
    ensures Inv(Run(maxCache, steps))
  {
    hide Inv, Apply;
    if steps == [] {
      EmptyOk();
    } else {
      RunKeeps(maxCache, steps[..|steps| - 1]);
      ApplyKeeps(Run(maxCache, steps[..|steps| - 1]), maxCache, steps[|steps| - 1]);
    }
  }

  lemma EmptyOk()
    ensures Inv(EMPTY)
  {
  }

  // ----- exact service -----

  function AnswersTo(trace: seq<Event>, face: nat): nat {
    if trace == [] then 0 else (if trace[0].Answered? && trace[0].face == face then 1 else 0) + AnswersTo(trace[1..], face)
  }

  function AskedBy(trace: seq<Event>, face: nat): nat {
    if trace == [] then 0 else (if trace[0].Asked? && trace[0].face == face then 1 else 0) + AskedBy(trace[1..], face)
  }

  /** In how many pending interests a face waits. */
  function WaitsIn(pit: seq<PitEntry>, face: nat): nat {
    if pit == [] then 0 else (if face in Waiting(pit[0].pending) then 1 else 0) + WaitsIn(pit[1..], face)
  }

  lemma {:induction false} CountAppend(a: seq<Event>, b: seq<Event>, face: nat)
    ensures AnswersTo(a + b, face) == AnswersTo(a, face) + AnswersTo(b, face)
    ensures AskedBy(a + b, face) == AskedBy(a, face) + AskedBy(b, face)
  {
    if a == [] {
      assert a + b == b;
    } else {
      CountAppend(a[1..], b, face);
      assert (a + b)[1..] == a[1..] + b;
    }
  }

  /** Nothing but interests that are sent on. */
  predicate OnlyForwarded(evs: seq<Event>) {
    forall e :: e in evs ==> e.Forwarded?
  }

  lemma {:induction false} ForwardedCount(evs: seq<Event>, face: nat)
    requires OnlyForwarded(evs)
    ensures AnswersTo(evs, face) == 0 && AskedBy(evs, face) == 0
  {
    if evs != [] {
      assert evs[0] in evs;
      ForwardedCount(evs[1..], face);
    }
  }

  lemma {:induction false} AnswersCount(served: seq<nat>, d: Data, face: nat)
    requires NoDup(served)
    ensures AnswersTo(Answers(served, d), face) == (if face in served then 1 else 0)
    ensures AskedBy(Answers(served, d), face) == 0
  {
    var all := Answers(served, d);
    if served != [] {
      var rest := served[1..];
      assert all[0] == Answered(served[0], d);
      assert all[1..] == Answers(rest, d);
      forall a, b | 0 <= a < b < |rest| ensures rest[a] != rest[b] {
        assert served[a + 1] != served[b + 1];
      }
      AnswersCount(rest, d, face);
      assert served[0] !in rest;
      assert face in served <==> face == served[0] || face in rest;
      assert AnswersTo(all, face) == (if served[0] == face then 1 else 0) + AnswersTo(all[1..], face);
      assert AskedBy(all, face) == AskedBy(all[1..], face);
    } else {
      assert all == [];
    }
  }

  lemma KnownIs(contents: seq<CsEntry>, buf: seq<Byte>)
    ensures Known(contents, buf) <==> exists c :: c in contents && c.data.buf == buf
  {
  }

  /** New data is sent exactly once to each face that waits in a matching interest, and to no other;
      exactly the matching interests are removed; the data is stored if it was wanted and there is
      a store. Data that is known, or that nothing matches, changes nothing. */
  lemma ServesExactly(s: State, maxCache: int, d: Data, now: int, face: nat)
    requires Inv(s)
    ensures var t := HandleData(s, maxCache, d, now);
            if (exists c :: c in s.contents && c.data.buf == d.buf) || Unmatched(s.pit, d) == s.pit then t == s
            else
              && t.pit == Unmatched(s.pit, d) && s.trace <= t.trace
              && (var sent := t.trace[|s.trace|..];
                  && AnswersTo(sent, face) == (if Wanted(s.pit, d, face) then 1 else 0)
                  && forall e :: e in sent ==> e.Answered? && e.data == d)
              && t.faces == s.faces && t.fib == s.fib && t.nonces == s.nonces
              && (maxCache == 0 ==> t.contents == s.contents)
              && (maxCache != 0 ==> |t.contents| == |s.contents| + 1 && t.contents[1..] == s.contents
                                    && t.contents[0].data == d && t.contents[0].lastUsed == now && !t.contents[0].isStatic
                                    && t.contents[0].served == |t.trace| - |s.trace|)
  {
    KnownIs(s.contents, d.buf);
    hide Known, Matches, ServePit, Unmatched, Wanted, Inv, NoDup;
    InvAllPending(s);
    assert NoDup([]) by { NothingTwice(); }
    ServeIs(s.pit, d, []);
    var r := ServePit(s.pit, d, []);
    UnmatchedAll(s.pit, d);
    if r.served == [] {
      assert Answers(r.served, d) == [];
      assert s.trace + Answers(r.served, d) == s.trace;
    } else {
      assert r.served[0] in r.served;
    }
    if !Known(s.contents, d.buf) {
      AnswersCount(r.served, d, face);
      var t := HandleData(s, maxCache, d, now);
      assert t.trace[|s.trace|..] == Answers(r.served, d);
    }
  }

  /** Nothing is unmatched but all, exactly if nobody wants the data. */
  lemma {:induction false} UnmatchedAll(pit: seq<PitEntry>, d: Data)
    requires AllPending(pit)
    ensures Unmatched(pit, d) == pit <==> forall f :: !Wanted(pit, d, f)
    ensures |Unmatched(pit, d)| <= |pit|
  {
    hide Matches, Wanted;
    if pit != [] {
      var e := pit[0];
      assert e in pit && forall x :: x in pit[1..] ==> x in pit;
      UnmatchedAll(pit[1..], d);
      WantedStep(pit, d);
      assert e.pending[0].face in Waiting(e.pending);
      assert pit == [e] + pit[1..];
    } else {
      NobodyWaits(d);
    }
  }

  lemma NobodyWaits(d: Data)
    ensures forall f :: !Wanted([], d, f)
  {
  }

  // ----- what becomes of an interest -----

  /** An interest is sent on exactly to the faces of the routes that take it. */
  lemma {:induction false} PropagatedExactly(faces: seq<Face>, fib: seq<Route>, e: PitEntry, f: nat)
    ensures Forwarded(f, e.pkt) in Propagated(faces, fib, e) <==> exists r :: r in fib && r.face == f && Takes(faces, r, e)
  {
    hide Takes;
    if fib != [] {
      PropagatedExactly(faces, fib[1..], e, f);
      assert forall r :: r in fib <==> r == fib[0] || r in fib[1..];
    }
  }

  lemma {:induction false} FindHitHits(contents: seq<CsEntry>, pkt: Interest)
    ensures var k := FindHit(contents, pkt); k < |contents| ==> Hit(pkt, contents[k])
  {
    hide Hit;
    if contents != [] {
      FindHitHits(contents[1..], pkt);
    }
  }

  lemma {:induction false} FindSameIsSame(pit: seq<PitEntry>, pkt: Interest)
    ensures var k := FindSame(pit, pkt); k < |pit| ==> Same(pit[k].pkt, pkt)
  {
    hide Same;
    if pit != [] {
      FindSameIsSame(pit[1..], pkt);
    }
  }

  /** No interest like it is pending. */
  ghost predicate NothingSame(pit: seq<PitEntry>, pkt: Interest) {
    forall e :: e in pit ==> !Same(e.pkt, pkt)
  }

  /** One pending entry has become `e`, which differs in its waiting faces only: one has been added
      behind, or its time renewed. */
  ghost predicate Rejoins(pit: seq<PitEntry>, after: seq<PitEntry>, e: PitEntry, from: nat, now: int) {
    exists k :: 0 <= k < |pit| && after == pit[k := e] && e == pit[k].(pending := e.pending)
                && Renewed(pit[k].pending, e.pending, from, now)
  }

  predicate Renewed(before: seq<Pending>, after: seq<Pending>, from: nat, now: int) {
    if from !in Waiting(before) then after == before + [Pending(from, now)]
    else exists i :: 0 <= i < |before| && before[i].face == from && after == before[i := Pending(from, now)]
  }

  lemma {:induction false} AppendRenews(pending: seq<Pending>, from: nat, now: int)
    ensures Renewed(pending, Append(pending, from, now), from, now)
  {
    if pending != [] {
      var p, rest := pending[0], pending[1..];
      if p.face == from {
        assert Append(pending, from, now) == pending[0 := Pending(from, now)];
      } else {
        AppendRenews(rest, from, now);
        var r := Append(rest, from, now);
        if from in Waiting(rest) {
          var i :| 0 <= i < |rest| && rest[i].face == from && r == rest[i := Pending(from, now)];
          assert pending[i + 1] == rest[i] && [p] + r == pending[i + 1 := Pending(from, now)];
        } else {
          assert [p] + (rest + [Pending(from, now)]) == pending + [Pending(from, now)];
        }
      }
    }
  }

  lemma {:induction false} NothingSameFound(pit: seq<PitEntry>, pkt: Interest)
    ensures FindSame(pit, pkt) == |pit| <==> NothingSame(pit, pkt)
  {
    hide Same;
    if pit != [] {
      NothingSameFound(pit[1..], pkt);
      assert forall e :: e in pit <==> e == pit[0] || e in pit[1..];
    }
  }

  /** Refused as a duplicate or for its scope, an interest leaves no entry and brings no answer. */
  predicate Refused(s: State, pkt: Interest) {
    || (HasNonce(pkt) && pkt.nonce.value in s.nonces)
    || (FindHit(s.contents, pkt) == |s.contents| && !ForwardingOk(pkt))
  }

  /** An interest is refused, or answered at once from a content that matches it, or its face then
      waits in an entry for the same interest, which is sent to exactly the faces of its routes. */
  lemma InterestOutcome(s: State, from: nat, pkt: Interest, now: int)
    ensures var t, asked := HandleInterest(s, from, pkt, now), s.trace + [Asked(from)];
            if Refused(s, pkt) then t.pit == s.pit && t.trace == asked
            else if FindHit(s.contents, pkt) < |s.contents| then
              t.pit == s.pit
              && exists c :: c in s.contents && Hit(pkt, c) && t.trace == asked + [Answered(from, c.data)]
            else
              exists e :: e in t.pit && Same(e.pkt, pkt) && from in Waiting(e.pending)
                          && t.trace == asked + Propagated(s.faces, s.fib, e)
                          && (NothingSame(s.pit, pkt) ==> e == PitEntry(pkt, Some(from), [Pending(from, now)], now, 0)
                                                          && t.pit == [e] + s.pit)
                          && (!NothingSame(s.pit, pkt) ==> Rejoins(s.pit, t.pit, e, from, now))
  {
    hide Hit, Same, Propagated, Append, ForwardingOk, FindSame, NothingSame, Rejoins;
    var h, k := FindHit(s.contents, pkt), FindSame(s.pit, pkt);
    FindHitHits(s.contents, pkt);
    NothingSameFound(s.pit, pkt);
    if !Refused(s, pkt) && h < |s.contents| {
      assert s.contents[h] in s.contents;
    } else if !Refused(s, pkt) {
      if k < |s.pit| {
        JoinsSame(s.pit, from, pkt, now);
      } else {
        StartsNew(s.pit, from, pkt, now);
      }
    }
  }

  lemma JoinsSame(pit: seq<PitEntry>, from: nat, pkt: Interest, now: int)
    requires FindSame(pit, pkt) < |pit|
    ensures var k := FindSame(pit, pkt);
            var e := pit[k].(pending := Append(pit[k].pending, from, now));
            e in pit[k := e] && Same(e.pkt, pkt) && from in Waiting(e.pending) && Rejoins(pit, pit[k := e], e, from, now)
  {
    hide Same, Append, Renewed;
    var k := FindSame(pit, pkt);
    var e := Joined(pit[k], from, now);
    FindSameIsSame(pit, pkt);
    WaitingAppend(pit[k].pending, from, now);
    AppendRenews(pit[k].pending, from, now);
    assert pit[k := e][k] == e;
  }

  lemma StartsNew(pit: seq<PitEntry>, from: nat, pkt: Interest, now: int)
    ensures var all := [PitEntry(pkt, Some(from), [], now, 0)] + pit;
            var e := all[0].(pending := Append(all[0].pending, from, now));
            e == PitEntry(pkt, Some(from), [Pending(from, now)], now, 0) && all[0 := e] == [e] + pit
            && e in all[0 := e] && Same(e.pkt, pkt) && from in Waiting(e.pending)
  {
    hide Same;
    FirstPending(from, now);
    SameSelf(pkt);
    assert [Pending(from, now)][0].face == from;
  }

  lemma FirstPending(from: nat, now: int)
    ensures Append([], from, now) == [Pending(from, now)]
  {
  }

  lemma SameSelf(pkt: Interest)
    ensures Same(pkt, pkt)
  {
  }

  // ----- what ageing leaves -----

  lemma {:induction false} AgeContentsExactly(contents: seq<CsEntry>, now: int, c: CsEntry)
    ensures c in AgeContents(contents, now) <==> c in contents && !Old(c, now)
  {
    hide Old;
    if contents != [] {
      AgeContentsExactly(contents[1..], now, c);
    }
  }

  lemma {:induction false} AgeFacesExactly(s: State, i: nat, now: int, f: Face)
    requires i <= |s.faces|
    ensures f in AgeFaces(s, i, now).faces <==> f in s.faces[..i] || (f in s.faces[i..] && !Expired(f, now))
    ensures AgeFaces(s, i, now).contents == s.contents
    decreases |s.faces| - i
  {
    hide Expired, CleanPit, CleanFib;
    if i < |s.faces| {
      var g, rest := s.faces[i], s.faces[i + 1..];
      assert s.faces[i..] == [g] + rest;
      if Expired(g, now) {
        var t := RelayState.RemoveFace(s, i);
        assert t.faces[..i] == s.faces[..i] && t.faces[i..] == rest;
        AgeFacesExactly(t, i, now, f);
      } else {
        assert s.faces[..i + 1] == s.faces[..i] + [g];
        AgeFacesExactly(s, i + 1, now, f);
      }
    }
  }

  /** Not yet timed out when last looked at. */
  predicate Pressing(e: PitEntry, now: int) {
    now < e.lastUsed + INTEREST_TIMEOUT && e.retries <= MAX_RETRANSMIT + 1
  }

  lemma {:induction false} AgePitPressing(pit: seq<PitEntry>, now: int)
    ensures forall e :: e in AgePit(pit, now) ==> Pressing(e, now)
  {
    if pit != [] {
      AgePitPressing(pit[1..], now);
    }
  }

  lemma {:induction false} CleanPitPressing(pit: seq<PitEntry>, f: nat, now: int)
    requires forall e :: e in pit ==> Pressing(e, now)
    ensures forall e :: e in CleanPit(pit, f) ==> Pressing(e, now)
  {
    hide Without;
    if pit != [] {
      assert Pressing(pit[0], now);
      CleanPitPressing(pit[1..], f, now);
    }
  }

  lemma {:induction false} AgeFacesPressing(s: State, i: nat, now: int)
    requires i <= |s.faces| && forall e :: e in s.pit ==> Pressing(e, now)
    ensures forall e :: e in AgeFaces(s, i, now).pit ==> Pressing(e, now)
    decreases |s.faces| - i
  {
    hide Expired, CleanPit, CleanFib, Pressing;
    if i < |s.faces| {
      if Expired(s.faces[i], now) {
        CleanPitPressing(s.pit, s.faces[i].id, now);
        AgeFacesPressing(RelayState.RemoveFace(s, i), i, now);
      } else {
        AgeFacesPressing(s, i + 1, now);
      }
    }
  }

  // ----- what ageing leaves in the PIT -----

  function Bereft(pending: seq<Pending>, gone: set<nat>): seq<Pending> {
    if pending == [] then []
    else (if pending[0].face in gone then [] else [pending[0]]) + Bereft(pending[1..], gone)
  }

  /** An entry when some faces are gone. */
  function Survivor(e: PitEntry, gone: set<nat>): PitEntry {
    e.(from := if e.from.Some? && e.from.value in gone then None else e.from, pending := Bereft(e.pending, gone))
  }

  function Survivors(pit: seq<PitEntry>, gone: set<nat>): seq<PitEntry> {
    if pit == [] then []
    else
      var e := Survivor(pit[0], gone);
      (if e.pending == [] then [] else [e]) + Survivors(pit[1..], gone)
  }

  lemma {:induction false} BereftTwice(pending: seq<Pending>, f: nat, gone: set<nat>)
    ensures Bereft(Without(pending, f), gone) == Bereft(pending, {f} + gone)
  {
    if pending != [] {
      BereftTwice(pending[1..], f, gone);
      var rest := Without(pending[1..], f);
      assert [] + rest == rest && ([pending[0]] + rest)[1..] == rest;
    }
  }

  /** Cleaning up after one face and then after others is cleaning up after all of them. */
  lemma {:induction false} SurvivorsTwice(pit: seq<PitEntry>, f: nat, gone: set<nat>)
    ensures Survivors(CleanPit(pit, f), gone) == Survivors(pit, {f} + gone)
  {
    hide Bereft, Without;
    if pit != [] {
      SurvivorsTwice(pit[1..], f, gone);
      BereftTwice(pit[0].pending, f, gone);
      var e, rest := CleanEntry(pit[0], f), CleanPit(pit[1..], f);
      assert Survivor(e, gone) == Survivor(pit[0], {f} + gone);
      NothingBereft(gone);
      assert [] + rest == rest && ([e] + rest)[1..] == rest;
    }
  }

  lemma NothingBereft(gone: set<nat>)
    ensures Bereft([], gone) == []
  {
  }

  lemma {:induction false} NobodyGone(pending: seq<Pending>)
    ensures Bereft(pending, {}) == pending
  {
    if pending != [] {
      NobodyGone(pending[1..]);
    }
  }

  lemma {:induction false} AllSurvive(pit: seq<PitEntry>)
    requires AllPending(pit)
    ensures Survivors(pit, {}) == pit
  {
    hide Bereft;
    if pit != [] {
      assert pit[0] in pit && forall e :: e in pit[1..] ==> e in pit;
      NobodyGone(pit[0].pending);
      AllSurvive(pit[1..]);
    }
  }

  lemma {:induction false} CleanAllPending(pit: seq<PitEntry>, f: nat)
    ensures AllPending(CleanPit(pit, f))
  {
    hide Without;
    if pit != [] {
      CleanAllPending(pit[1..], f);
    }
  }

  lemma {:induction false} AgeAllPending(pit: seq<PitEntry>, now: int)
    requires AllPending(pit)
    ensures AllPending(AgePit(pit, now))
  {
    hide TimedOut;
    if pit != [] {
      assert pit[0] in pit && forall e :: e in pit[1..] ==> e in pit;
      AgeAllPending(pit[1..], now);
    }
  }

  /** The faces that expire. */
  function ExpiredIds(faces: seq<Face>, now: int): set<nat> {
    if faces == [] then {} else (if Expired(faces[0], now) then {faces[0].id} else {}) + ExpiredIds(faces[1..], now)
  }

  lemma {:induction false} ExpiredIdsExactly(faces: seq<Face>, now: int, id: nat)
    ensures id in ExpiredIds(faces, now)
       <==> exists f :: f in faces && f.id == id && !f.isStatic && f.lastUsed + 15 <= now
  {
    if faces != [] {
      ExpiredIdsExactly(faces[1..], now, id);
      assert forall f :: f in faces <==> f == faces[0] || f in faces[1..];
    }
  }

  lemma {:induction false} AgeFacesPit(s: State, i: nat, now: int)
    requires i <= |s.faces| && AllPending(s.pit)
    ensures AgeFaces(s, i, now).pit == Survivors(s.pit, ExpiredIds(s.faces[i..], now))
    decreases |s.faces| - i
  {
    hide Expired, CleanPit, CleanFib, Survivors, AllPending;
    if i == |s.faces| {
      AllSurvive(s.pit);
    } else {
      var f, rest := s.faces[i], s.faces[i + 1..];
      assert s.faces[i..][0] == f && s.faces[i..][1..] == rest;
      if Expired(f, now) {
        var t := RelayState.RemoveFace(s, i);
        assert t.faces[i..] == rest;
        CleanAllPending(s.pit, f.id);
        AgeFacesPit(t, i, now);
        SurvivorsTwice(s.pit, f.id, ExpiredIds(rest, now));
      } else {
        assert {} + ExpiredIds(rest, now) == ExpiredIds(rest, now);
        AgeFacesPit(s, i + 1, now);
      }
    }
  }

  /** An entry that has not timed out is retried once more, and stays if a face still waits for it. */
  predicate AgesTo(e: PitEntry, gone: set<nat>, now: int, r: PitEntry) {
    && now < e.lastUsed + 4 && e.retries <= 2
    && r == Survivor(e.(retries := e.retries + 1), gone) && r.pending != []
  }

  lemma SurvivorsFirst(e: PitEntry, rest: seq<PitEntry>, gone: set<nat>)
    ensures Survivors([e] + rest, gone)
         == (if Survivor(e, gone).pending == [] then [] else [Survivor(e, gone)]) + Survivors(rest, gone)
  {
    assert ([e] + rest)[1..] == rest;
  }

  lemma {:induction false} SurvivorsExactly(pit: seq<PitEntry>, gone: set<nat>, now: int, r: PitEntry)
    ensures r in Survivors(AgePit(pit, now), gone) <==> exists e :: e in pit && AgesTo(e, gone, now, r)
  {
    hide Survivor, Survivors;
    if pit == [] {
      NoSurvivors(gone);
    } else {
      var first, rest := pit[0], AgePit(pit[1..], now);
      var e := first.(retries := first.retries + 1);
      SurvivorsExactly(pit[1..], gone, now, r);
      SurvivorsFirst(e, rest, gone);
      assert [] + rest == rest;
      assert AgesTo(first, gone, now, r) <==> !TimedOut(first, now) && r == Survivor(e, gone) && r.pending != [];
      assert forall x :: x in pit <==> x == first || x in pit[1..];
    }
  }

  lemma NoSurvivors(gone: set<nat>)
    ensures Survivors([], gone) == []
  {
  }

  /** Ageing removes exactly the contents unused for 30 seconds and the faces unused for 15, unless they
      are static, and the interests that are 4 seconds old, have been sent again three times, or lost their last waiting face; the other interests stay in their order, retried once
      more and without the faces that are gone. */
  lemma AgesExactly(s: State, now: int, c: CsEntry, f: Face, r: PitEntry)
    ensures var t, gone := RelayState.Age(s, now), ExpiredIds(s.faces, now);
            && (c in t.contents <==> c in s.contents && (c.isStatic || now < c.lastUsed + 30))
            && (f in t.faces <==> f in s.faces && (f.isStatic || now < f.lastUsed + 15))
            && (forall e :: e in t.pit ==> Pressing(e, now))
            && (AllPending(s.pit) ==>
                  && t.pit == Survivors(AgePit(s.pit, now), gone)
                  && (r in t.pit <==> exists e :: e in s.pit && AgesTo(e, gone, now, r)))
  {
    hide AgeFaces, AgePit, Retransmitted, Pressing, AgesTo, Survivors, AllPending;
    AgePitPressing(s.pit, now);
    AgeFacesPressing(AgeLists(s, now), 0, now);
    AgeContentsExactly(s.contents, now, c);
    AgeFacesExactly(AgeLists(s, now), 0, now, f);
    assert s.faces[..0] == [] && s.faces[0..] == s.faces;
    if AllPending(s.pit) {
      AgeAllPending(s.pit, now);
      AgeFacesPit(AgeLists(s, now), 0, now);
      SurvivorsExactly(s.pit, ExpiredIds(s.faces, now), now, r);
    }
  }

  // ----- flow balance -----

  /** No face has been sent, or is still waiting for, more data than it has asked for. */
  ghost predicate Balanced(s: State) {
    forall f :: AnswersTo(s.trace, f) + WaitsIn(s.pit, f) <= AskedBy(s.trace, f)
  }

  lemma {:induction false} ForwardedOnly(faces: seq<Face>, fib: seq<Route>, e: PitEntry)
    ensures OnlyForwarded(Propagated(faces, fib, e))
  {
    hide Takes;
    if fib != [] {
      ForwardedOnly(faces, fib[1..], e);
    }
  }

  lemma {:induction false} RetransmittedOnly(faces: seq<Face>, fib: seq<Route>, pit: seq<PitEntry>, now: int)
    ensures OnlyForwarded(Retransmitted(faces, fib, pit, now))
  {
    hide Propagated, TimedOut;
    if pit != [] {
      RetransmittedOnly(faces, fib, pit[1..], now);
      ForwardedOnly(faces, fib, pit[0]);
    }
  }

  lemma {:induction false} UnmatchedWaits(pit: seq<PitEntry>, d: Data, f: nat)
    ensures WaitsIn(Unmatched(pit, d), f) + (if Wanted(pit, d, f) then 1 else 0) <= WaitsIn(pit, f)
  {
    hide Matches, Wanted;
    if pit != [] {
      UnmatchedWaits(pit[1..], d, f);
      WantedStep(pit, d);
      var rest := Unmatched(pit[1..], d);
      assert [] + rest == rest && ([pit[0]] + rest)[1..] == rest;
    } else {
      NobodyWaits(d);
    }
  }

  lemma {:induction false} CleanWaits(pit: seq<PitEntry>, g: nat, f: nat)
    ensures WaitsIn(CleanPit(pit, g), f) <= WaitsIn(pit, f)
  {
    if pit != [] {
      hide Without;
      CleanWaits(pit[1..], g, f);
      WaitingWithoutIn(pit[0].pending, g, f);
      var e, rest := CleanEntry(pit[0], g), CleanPit(pit[1..], g);
      assert [] + rest == rest && ([e] + rest)[1..] == rest;
    }
  }

  lemma WaitingWithoutIn(pending: seq<Pending>, g: nat, f: nat)
    ensures f in Waiting(Without(pending, g)) ==> f in Waiting(pending)
  {
    WaitingWithout(pending, g);
    if f in Waiting(Without(pending, g)) {
      SubIn(Waiting(Without(pending, g)), Waiting(pending), f);
    }
  }

  lemma {:induction false} AgeWaits(pit: seq<PitEntry>, now: int, f: nat)
    ensures WaitsIn(AgePit(pit, now), f) <= WaitsIn(pit, f)
  {
    hide TimedOut;
    if pit != [] {
      AgeWaits(pit[1..], now, f);
      var e, rest := pit[0].(retries := pit[0].retries + 1), AgePit(pit[1..], now);
      assert [] + rest == rest && ([e] + rest)[1..] == rest;
    }
  }

  lemma {:induction false} UpdateWaits(pit: seq<PitEntry>, j: nat, from: nat, now: int, f: nat)
    requires j < |pit|
    ensures WaitsIn(pit[j := pit[j].(pending := Append(pit[j].pending, from, now))], f)
         <= WaitsIn(pit, f) + (if f == from then 1 else 0)
  {
    hide Append;
    var e := pit[j].(pending := Append(pit[j].pending, from, now));
    if j == 0 {
      WaitingAppend(pit[0].pending, from, now);
      assert pit[0 := e][1..] == pit[1..];
    } else {
      UpdateWaits(pit[1..], j - 1, from, now, f);
      assert pit[j := e][1..] == pit[1..][j - 1 := e];
    }
  }

  /** From `s` to `t`, a face was sent and waits for at most as much more as it asked for. */
  predicate Fair(s: State, t: State, f: nat) {
    AnswersTo(t.trace, f) + WaitsIn(t.pit, f) + AskedBy(s.trace, f)
    <= AnswersTo(s.trace, f) + WaitsIn(s.pit, f) + AskedBy(t.trace, f)
  }

  lemma InterestFair(s: State, from: nat, pkt: Interest, now: int, f: nat)
    ensures Fair(s, HandleInterest(s, from, pkt, now), f)
  {
    hide FindOrAppend, FindHit, FindSame, ForwardingOk, Propagated, Append, WaitsIn;
    var t := HandleInterest(s, from, pkt, now);
    var asked := s.trace + [Asked(from)];
    CountAppend(s.trace, [Asked(from)], f);
    OneEvent(Asked(from), f);
    var h := FindHit(s.contents, pkt);
    if h < |s.contents| {
      var answer := Answered(from, s.contents[h].data);
      CountAppend(asked, [answer], f);
      OneEvent(answer, f);
    } else {
      var k := FindSame(s.pit, pkt);
      var pit := if k < |s.pit| then s.pit else [PitEntry(pkt, Some(from), [], now, 0)] + s.pit;
      var j := if k < |s.pit| then k else 0;
      NewEntryWaits(s.pit, PitEntry(pkt, Some(from), [], now, 0), f);
      UpdateWaits(pit, j, from, now, f);
      var out := Propagated(s.faces, s.fib, pit[j].(pending := Append(pit[j].pending, from, now)));
      ForwardedOnly(s.faces, s.fib, pit[j].(pending := Append(pit[j].pending, from, now)));
      ForwardedCount(out, f);
      CountAppend(asked, out, f);
    }
  }

  lemma OneEvent(e: Event, f: nat)
    ensures AnswersTo([e], f) == (if e.Answered? && e.face == f then 1 else 0)
    ensures AskedBy([e], f) == (if e.Asked? && e.face == f then 1 else 0)
  {
    assert [e][1..] == [];
  }

  lemma NewEntryWaits(pit: seq<PitEntry>, e: PitEntry, f: nat)
    requires e.pending == []
    ensures WaitsIn([e] + pit, f) == WaitsIn(pit, f)
  {
    assert ([e] + pit)[1..] == pit;
  }

  lemma DataFair(s: State, maxCache: int, d: Data, now: int, f: nat)
    requires Inv(s)
    ensures Fair(s, HandleData(s, maxCache, d, now), f)
  {
    hide Known, Matches, ServePit, Unmatched, Wanted, Inv, NoDup, WaitsIn;
    InvAllPending(s);
    assert NoDup([]) by { NothingTwice(); }
    ServeIs(s.pit, d, []);
    var served := ServePit(s.pit, d, []).served;
    AnswersCount(served, d, f);
    CountAppend(s.trace, Answers(served, d), f);
    UnmatchedWaits(s.pit, d, f);
  }

  lemma {:induction false} AgeFacesFair(s: State, i: nat, now: int, f: nat)
    requires i <= |s.faces|
    ensures Fair(s, AgeFaces(s, i, now), f)
    decreases |s.faces| - i
  {
    hide WaitsIn, CleanPit;
    if i < |s.faces| {
      if Expired(s.faces[i], now) {
        CleanWaits(s.pit, s.faces[i].id, f);
        AgeFacesFair(RelayState.RemoveFace(s, i), i, now, f);
      } else {
        AgeFacesFair(s, i + 1, now, f);
      }
    }
  }

  lemma AgeFair(s: State, now: int, f: nat)
    ensures Fair(s, RelayState.Age(s, now), f)
  {
    hide WaitsIn, AgeFaces, Retransmitted;
    var out := Retransmitted(s.faces, s.fib, s.pit, now);
    AgeWaits(s.pit, now, f);
    RetransmittedOnly(s.faces, s.fib, s.pit, now);
    ForwardedCount(out, f);
    CountAppend(s.trace, out, f);
    AgeFacesFair(AgeLists(s, now), 0, now, f);
  }

  lemma ApplyFair(s: State, maxCache: int, step: Step, f: nat)
    requires Inv(s)
    ensures Fair(s, Apply(s, maxCache, step), f)
  {
    hide Inv, FaceFor, HandleInterest, HandleData, RelayState.Age, AnswersTo, AskedBy, WaitsIn, CleanPit;
    match step {
      case Receive(ifndx, peer, reflect, msg, now) =>
        var (from, t) := FaceFor(s, ifndx, peer, reflect, now);
        FaceForKeeps(s, ifndx, peer, reflect, now);
        match msg {
          case AnInterest(pkt) => InterestFair(t, from, pkt, now, f);
          case SomeData(d) => DataFair(t, maxCache, d, now, f);
        }
      case Tick(now) => AgeFair(s, now, f);
      case Drop(i) => if i < |s.faces| { CleanWaits(s.pit, s.faces[i].id, f); }
      case Configure(suite, prefix, i) =>
    }
  }

  /** Over whole runs, one interest brings a face at most one data packet. */
  lemma {:induction false} RunBalanced(maxCache: int, steps: seq<Step>)
    ensures Balanced(Run(maxCache, steps))
  {
    hide Apply, Inv;
    if steps != [] {
      var s := Run(maxCache, steps[..|steps| - 1]);
      RunBalanced(maxCache, steps[..|steps| - 1]);
      RunKeeps(maxCache, steps[..|steps| - 1]);
      var t := Run(maxCache, steps);
      forall f ensures AnswersTo(t.trace, f) + WaitsIn(t.pit, f) <= AskedBy(t.trace, f) {
        ApplyFair(s, maxCache, steps[|steps| - 1], f);
        assert AnswersTo(s.trace, f) + WaitsIn(s.pit, f) <= AskedBy(s.trace, f);
      }
    }
  }

  // ----- the nonce window -----

  /** The most recent of the accepted nonces, newest first. */
  function Window(history: seq<seq<Byte>>): seq<seq<Byte>> {
    if |history| <= 256 then history else history[..256]
  }

  function NonceOf(step: Step): Option<seq<Byte>> {
    if step.Receive? && step.msg.AnInterest? && step.msg.pkt.suite == Ndn then step.msg.pkt.nonce else None
  }

  /** All nonces accepted in a run, newest first: a nonce is refused if it is in the window. */
  function Accepted(steps: seq<Step>): seq<seq<Byte>> {
    if steps == [] then []
    else
      var h, n := Accepted(steps[..|steps| - 1]), NonceOf(steps[|steps| - 1]);
      if n.Some? && n.value !in Window(h) then [n.value] + h else h
  }

  predicate Distinct(s: seq<seq<Byte>>) {
    forall a, b | 0 <= a < b < |s| :: s[a] != s[b]
  }

  lemma NextWindow(history: seq<seq<Byte>>, nonce: seq<Byte>)
    requires Distinct(Window(history))
    ensures var (dup, list) := FindOrAppend(Window(history), nonce);
            && (dup <==> nonce in Window(history))
            && list == Window(if dup then history else [nonce] + history) && Distinct(list)
  {
    var w, h := Window(history), [nonce] + history;
    if nonce !in w {
      assert Window(h) == [nonce] + if |w| >= MAX_NONCES then w[..|w| - 1] else w;
    }
  }

  lemma {:induction false} AgeFacesNonces(s: State, i: nat, now: int)
    requires i <= |s.faces|
    ensures AgeFaces(s, i, now).nonces == s.nonces
    decreases |s.faces| - i
  {
    if i < |s.faces| {
      if Expired(s.faces[i], now) {
        AgeFacesNonces(RelayState.RemoveFace(s, i), i, now);
      } else {
        AgeFacesNonces(s, i + 1, now);
      }
    }
  }

  lemma ApplyNonces(s: State, maxCache: int, step: Step)
    ensures Apply(s, maxCache, step).nonces
         == match NonceOf(step) case None => s.nonces case Some(n) => FindOrAppend(s.nonces, n).1
  {
    hide AgeFaces, ServePit, Propagated, FindHit, FindSame, Known, CleanPit, Append, ForwardingOk;
    match step {
      case Receive(ifndx, peer, reflect, msg, now) =>
        var (from, t) := FaceFor(s, ifndx, peer, reflect, now);
        assert t.nonces == s.nonces;
      case Drop(i) =>
      case Configure(suite, prefix, i) =>
      case Tick(now) =>
        AgeFacesNonces(AgeLists(s, now), 0, now);
    }
  }

  /** The nonce list holds exactly the most recent accepted nonces, up to its limit, each once. */
  lemma {:induction false} NonceWindow(maxCache: int, steps: seq<Step>)
    ensures Run(maxCache, steps).nonces == Window(Accepted(steps)) && Distinct(Window(Accepted(steps)))
  {
    hide Apply, FindOrAppend, NonceOf, Window;
    if steps == [] {
      assert Window([]) == [] by { EmptyWindow(); }
    } else {
      var init, last := steps[..|steps| - 1], steps[|steps| - 1];
      NonceWindow(maxCache, init);
      ApplyNonces(Run(maxCache, init), maxCache, last);
      if NonceOf(last).Some? {
        NextWindow(Accepted(init), NonceOf(last).value);
      }
    }
  }

  lemma EmptyWindow()
    ensures Window([]) == []
  {
  }

  /** An interest is dropped as a duplicate, leaving only the trace of its arrival, if its nonce is
      among the accepted ones of the window. */
  lemma DuplicatesDropped(maxCache: int, steps: seq<Step>, from: nat, pkt: Interest, now: int)
    requires pkt.suite == Ndn && pkt.nonce.Some? && pkt.nonce.value in Window(Accepted(steps))
    ensures var s := Run(maxCache, steps);
            HandleInterest(s, from, pkt, now) == s.(trace := s.trace + [Asked(from)])
  {
    hide Run, Window, Accepted;
    NonceWindow(maxCache, steps);
  }
}
