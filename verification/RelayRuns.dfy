/** What holds in every state of a relay, whatever it receives and however it ages. */
module RelayRuns {
  import opened Options
  import opened NdnTlv
  import opened Matching
  import opened RelayState

  // ----- the invariants -----

  /** No content in the store answers a pending interest of its suite. */
  ghost predicate Apart(pkts: seq<Interest>, contents: seq<CsEntry>) {
    forall p, c :: p in pkts && c in contents ==> !Hit(p, c)
  }

  function Pkts(pit: seq<PitEntry>): seq<Interest> {
    if pit == [] then [] else [pit[0].pkt] + Pkts(pit[1..])
  }

  ghost predicate NoneSame(pkts: seq<Interest>) {
    forall a, b | 0 <= a < b < |pkts| :: !Same(pkts[a], pkts[b])
  }

  predicate NoDup(s: seq<nat>) {
    forall a, b | 0 <= a < b < |s| :: s[a] != s[b]
  }

  function Ids(faces: seq<Face>): seq<nat> {
    if faces == [] then [] else [faces[0].id] + Ids(faces[1..])
  }

  predicate Listed(faces: seq<Face>, id: nat) {
    id in Ids(faces)
  }

  /** An entry waits for data on behalf of some live faces, each once. */
  predicate EntryOk(faces: seq<Face>, e: PitEntry) {
    && e.pending != [] && NoDup(Waiting(e.pending))
    && (forall id :: id in Waiting(e.pending) ==> Listed(faces, id))
    && (e.from.Some? ==> Listed(faces, e.from.value))
  }

  ghost predicate Inv(s: State) {
    && Apart(Pkts(s.pit), s.contents)
    && NoneSame(Pkts(s.pit))
    && (forall e :: e in s.pit ==> EntryOk(s.faces, e))
    && (forall r :: r in s.fib ==> Listed(s.faces, r.face))
    && s.contentcnt == |s.contents|
    && NoDup(Ids(s.faces)) && (forall id :: id in Ids(s.faces) ==> id <= s.nextFace)
  }

  // ----- sublists -----

  predicate Sub<T(==)>(a: seq<T>, b: seq<T>) {
    a == [] || (b != [] && ((a[0] == b[0] && Sub(a[1..], b[1..])) || Sub(a, b[1..])))
  }

  lemma {:induction false} SubIn<T>(a: seq<T>, b: seq<T>, x: T)
    requires Sub(a, b) && x in a
    ensures x in b
  {
    if a[0] == b[0] && Sub(a[1..], b[1..]) {
      if x != a[0] {
        SubIn(a[1..], b[1..], x);
      }
    } else {
      SubIn(a, b[1..], x);
    }
  }

  lemma {:induction false} SubSelf<T>(a: seq<T>)
    ensures Sub(a, a)
  {
    if a != [] {
      SubSelf(a[1..]);
    }
  }

  lemma {:induction false} SubNoneSame(a: seq<Interest>, b: seq<Interest>)
    requires Sub(a, b) && NoneSame(b)
    ensures NoneSame(a)
  {
    hide Same;
    if a != [] {
      if a[0] == b[0] && Sub(a[1..], b[1..]) {
        SubNoneSame(a[1..], b[1..]);
        forall x, y | 0 <= x < y < |a| ensures !Same(a[x], a[y]) {
          if x == 0 {
            assert a[y] in a[1..];
            SubIn(a[1..], b[1..], a[y]);
            var k :| 0 <= k < |b[1..]| && b[1..][k] == a[y];
            assert b[k + 1] == a[y];
          } else {
            assert a[x] == a[1..][x - 1] && a[y] == a[1..][y - 1];
          }
        }
      } else {
        SubNoneSame(a, b[1..]);
      }
    }
  }

  lemma {:induction false} SubNoDup(a: seq<nat>, b: seq<nat>)
    requires Sub(a, b) && NoDup(b)
    ensures NoDup(a)
  {
    if a != [] {
      if a[0] == b[0] && Sub(a[1..], b[1..]) {
        SubNoDup(a[1..], b[1..]);
        forall x, y | 0 <= x < y < |a| ensures a[x] != a[y] {
          if x == 0 {
            assert a[y] in a[1..];
            SubIn(a[1..], b[1..], a[y]);
          }
        }
      } else {
        SubNoDup(a, b[1..]);
      }
    }
  }

  /** Fewer pending interests and fewer contents keep the two apart. */
  lemma SubApart(a: seq<Interest>, b: seq<Interest>, c: seq<CsEntry>, d: seq<CsEntry>)
    requires Sub(a, b) && Sub(c, d) && Apart(b, d)
    ensures Apart(a, c)
  {
    hide Hit;
    forall p, x | p in a && x in c ensures !Hit(p, x) {
      SubIn(a, b, p);
      SubIn(c, d, x);
    }
  }

  lemma {:induction false} SubPkts(a: seq<PitEntry>, b: seq<PitEntry>)
    requires Sub(a, b)
    ensures Sub(Pkts(a), Pkts(b))
  {
    if a != [] {
      if a[0] == b[0] && Sub(a[1..], b[1..]) {
        SubPkts(a[1..], b[1..]);
      } else {
        SubPkts(a, b[1..]);
      }
    }
  }

  lemma {:induction false} PktsUpdate(pit: seq<PitEntry>, j: nat, e: PitEntry)
    requires j < |pit| && e.pkt == pit[j].pkt
    ensures Pkts(pit[j := e]) == Pkts(pit)
  {
    if j > 0 {
      PktsUpdate(pit[1..], j - 1, e);
      assert pit[j := e][1..] == pit[1..][j - 1 := e];
    } else {
      assert pit[0 := e][1..] == pit[1..];
    }
  }

  lemma {:induction false} PktsIn(pit: seq<PitEntry>, e: PitEntry)
    requires e in pit
    ensures e.pkt in Pkts(pit)
  {
    if e != pit[0] {
      PktsIn(pit[1..], e);
    }
  }

  lemma {:induction false} PktsAt(pit: seq<PitEntry>, i: nat)
    requires i < |pit|
    ensures |Pkts(pit)| == |pit| && Pkts(pit)[i] == pit[i].pkt
  {
    if |pit| > 1 {
      PktsAt(pit[1..], if i > 0 then i - 1 else 0);
    }
  }

  // ----- pending lists -----

  lemma {:induction false} WaitingAppend(pending: seq<Pending>, face: nat, now: int)
    ensures var w := Waiting(pending);
            Waiting(Append(pending, face, now)) == if face in w then w else w + [face]
  {
    if pending != [] && pending[0].face != face {
      WaitingAppend(pending[1..], face, now);
    }
  }

  lemma {:induction false} WaitingWithout(pending: seq<Pending>, face: nat)
    ensures var w := Waiting(Without(pending, face));
            Sub(w, Waiting(pending)) && face !in w && (Without(pending, face) == [] <==> w == [])
  {
    if pending != [] {
      WaitingWithout(pending[1..], face);
      var rest := Without(pending[1..], face);
      if pending[0].face != face {
        assert ([pending[0]] + rest)[1..] == rest;
      } else {
        assert [] + rest == rest;
      }
    }
  }

  // ----- faces -----

  lemma IdsFirst(f: Face, rest: seq<Face>)
    ensures Ids([f] + rest) == [f.id] + Ids(rest)
  {
    assert ([f] + rest)[1..] == rest;
  }

  lemma NoIds()
    ensures Ids([]) == []
  {
  }

  lemma {:induction false} IdsAppend(a: seq<Face>, b: seq<Face>)
    ensures Ids(a + b) == Ids(a) + Ids(b)
  {
    hide Ids;
    if a == [] {
      NoIds();
      assert a + b == b;
    } else {
      var rest := a[1..];
      IdsAppend(rest, b);
      IdsFirst(a[0], rest);
      IdsFirst(a[0], rest + b);
      assert a == [a[0]] + rest && a + b == [a[0]] + (rest + b);
    }
  }

  lemma IdsSplit(faces: seq<Face>, i: nat)
    requires i < |faces|
    ensures Ids(faces) == Ids(faces[..i]) + [faces[i].id] + Ids(faces[i + 1..])
  {
    var rest := faces[i..];
    assert faces == faces[..i] + rest && rest[0] == faces[i] && rest[1..] == faces[i + 1..];
    assert Ids(rest) == [faces[i].id] + Ids(faces[i + 1..]);
    hide Ids;
    IdsAppend(faces[..i], rest);
  }

  lemma IdsUpdate(faces: seq<Face>, i: nat, f: Face)
    requires i < |faces| && f.id == faces[i].id
    ensures Ids(faces[i := f]) == Ids(faces)
  {
    IdsSplit(faces, i);
    IdsSplit(faces[i := f], i);
    assert faces[i := f][..i] == faces[..i] && faces[i := f][i + 1..] == faces[i + 1..];
  }

  /** A removed face is gone, and no other. */
  lemma IdsRemove(faces: seq<Face>, i: nat)
    requires i < |faces| && NoDup(Ids(faces))
    ensures var rest := faces[..i] + faces[i + 1..];
            NoDup(Ids(rest)) && forall id :: Listed(rest, id) <==> Listed(faces, id) && id != faces[i].id
  {
    var a, b := Ids(faces[..i]), Ids(faces[i + 1..]);
    IdsSplit(faces, i);
    IdsAppend(faces[..i], faces[i + 1..]);
    RemoveOne(a, faces[i].id, b);
  }

  lemma RemoveOne(a: seq<nat>, x: nat, b: seq<nat>)
    requires NoDup(a + [x] + b)
    ensures NoDup(a + b) && forall y :: y in a + b <==> y in a + [x] + b && y != x
  {
    var all := a + [x] + b;
    forall k | 0 <= k < |a| ensures a[k] != x {
      assert all[k] != all[|a|];
    }
    forall k | 0 <= k < |b| ensures b[k] != x && all[|a| + 1 + k] == b[k] {
      assert all[|a|] != all[|a| + 1 + k];
    }
    forall p, q | 0 <= p < q < |a + b| ensures (a + b)[p] != (a + b)[q] {
      var p1, q1 := if p < |a| then p else p + 1, if q < |a| then q else q + 1;
      assert all[p1] != all[q1];
    }
  }

  // ----- face removal -----

  lemma CleanEntryOk(e: PitEntry, f: nat, before: seq<Face>, after: seq<Face>)
    requires EntryOk(before, e)
    requires forall id :: Listed(after, id) <==> Listed(before, id) && id != f
    ensures CleanEntry(e, f).pending == [] || EntryOk(after, CleanEntry(e, f))
  {
    hide Listed, Sub;
    var w := Waiting(Without(e.pending, f));
    WaitingWithout(e.pending, f);
    SubNoDup(w, Waiting(e.pending));
    forall id | id in w ensures Listed(after, id) {
      SubIn(w, Waiting(e.pending), id);
    }
  }

  lemma {:induction false} CleanPitOk(pit: seq<PitEntry>, f: nat, before: seq<Face>, after: seq<Face>)
    requires forall e :: e in pit ==> EntryOk(before, e)
    requires forall id :: Listed(after, id) <==> Listed(before, id) && id != f
    ensures forall e :: e in CleanPit(pit, f) ==> EntryOk(after, e)
    ensures Sub(Pkts(CleanPit(pit, f)), Pkts(pit))
  {
    hide Listed, EntryOk, Without;
    if pit != [] {
      CleanPitOk(pit[1..], f, before, after);
      CleanEntryOk(pit[0], f, before, after);
      var e, rest := CleanEntry(pit[0], f), CleanPit(pit[1..], f);
      assert CleanPit(pit, f) == (if e.pending == [] then [] else [e]) + rest;
      assert [] + rest == rest && ([e] + rest)[1..] == rest;
    }
  }

  lemma {:induction false} CleanFibOk(fib: seq<Route>, f: nat)
    ensures forall r :: r in CleanFib(fib, f) ==> r in fib && r.face != f
  {
    if fib != [] {
      CleanFibOk(fib[1..], f);
    }
  }

  lemma RemoveFaceKeeps(s: State, i: nat)
    requires Inv(s) && i < |s.faces|
    ensures Inv(RemoveFace(s, i))
  {
    hide Sub, EntryOk, Apart, NoneSame, NoDup, Listed;
    var f, t := s.faces[i].id, RemoveFace(s, i);
    IdsRemove(s.faces, i);
    CleanPitOk(s.pit, f, s.faces, t.faces);
    CleanFibOk(s.fib, f);
    SubSelf(s.contents);
    SubApart(Pkts(t.pit), Pkts(s.pit), s.contents, s.contents);
    SubNoneSame(Pkts(t.pit), Pkts(s.pit));
    forall id | id in Ids(t.faces) ensures id in Ids(s.faces) {
      ListedIn(t.faces, id);
      ListedIn(s.faces, id);
    }
  }

  lemma ListedIn(faces: seq<Face>, id: nat)
    ensures Listed(faces, id) <==> id in Ids(faces)
  {
  }

  // ----- ageing -----

  lemma {:induction false} AgeContentsSub(contents: seq<CsEntry>, now: int)
    ensures Sub(AgeContents(contents, now), contents)
  {
    if contents != [] {
      AgeContentsSub(contents[1..], now);
      var rest := AgeContents(contents[1..], now);
      assert [] + rest == rest && ([contents[0]] + rest)[1..] == rest;
    }
  }

  lemma RetryOk(faces: seq<Face>, e: PitEntry)
    ensures EntryOk(faces, e) ==> EntryOk(faces, e.(retries := e.retries + 1))
  {
  }

  lemma {:induction false} AgePitOk(pit: seq<PitEntry>, now: int, faces: seq<Face>)
    requires forall e :: e in pit ==> EntryOk(faces, e)
    ensures forall e :: e in AgePit(pit, now) ==> EntryOk(faces, e)
    ensures Sub(Pkts(AgePit(pit, now)), Pkts(pit))
  {
    hide EntryOk, TimedOut;
    if pit != [] {
      AgePitOk(pit[1..], now, faces);
      var e, rest := pit[0].(retries := pit[0].retries + 1), AgePit(pit[1..], now);
      RetryOk(faces, pit[0]);
      assert [] + rest == rest && ([e] + rest)[1..] == rest;
    }
  }

  lemma {:induction false} AgeFacesKeeps(s: State, i: nat, now: int)
    requires Inv(s) && i <= |s.faces|
    ensures Inv(AgeFaces(s, i, now))
    decreases |s.faces| - i
  {
    hide Inv;
    if i < |s.faces| {
      if Expired(s.faces[i], now) {
        RemoveFaceKeeps(s, i);
        AgeFacesKeeps(RemoveFace(s, i), i, now);
      } else {
        AgeFacesKeeps(s, i + 1, now);
      }
    }
  }

  lemma AgeKeeps(s: State, now: int)
    requires Inv(s)
    ensures Inv(Age(s, now))
  {
    hide EntryOk, Sub, NoDup, Apart, NoneSame, Listed, Old, TimedOut, Retransmitted;
    var contents, pit := AgeContents(s.contents, now), AgePit(s.pit, now);
    AgeContentsSub(s.contents, now);
    AgePitOk(s.pit, now, s.faces);
    SubApart(Pkts(pit), Pkts(s.pit), contents, s.contents);
    SubNoneSame(Pkts(pit), Pkts(s.pit));
    AgeFacesKeeps(AgeLists(s, now), 0, now);
  }

  // ----- data -----

  function Unmatched(pit: seq<PitEntry>, d: Data): seq<PitEntry> {
    if pit == [] then [] else (if Matches(pit[0].pkt, d) then [] else [pit[0]]) + Unmatched(pit[1..], d)
  }

  ghost predicate Wanted(pit: seq<PitEntry>, d: Data, face: nat) {
    exists e :: e in pit && Matches(e.pkt, d) && face in Waiting(e.pending)
  }

  ghost predicate AllPending(pit: seq<PitEntry>) {
    forall e :: e in pit ==> e.pending != []
  }

  lemma {:induction false} ServeFacesIs(pending: seq<Pending>, served: seq<nat>)
    requires NoDup(served)
    ensures var r := ServeFaces(pending, served);
            && NoDup(r) && served <= r && forall f :: f in r <==> f in served || f in Waiting(pending)
  {
    if pending != [] {
      var f := pending[0].face;
      ServeFacesIs(pending[1..], if f in served then served else served + [f]);
    }
  }

  /** Serving takes away exactly the matching entries, and serves exactly the faces that wait in
      one of them, each once. */
  lemma {:induction false} ServeIs(pit: seq<PitEntry>, d: Data, served: seq<nat>)
    requires AllPending(pit) && NoDup(served)
    ensures var r := ServePit(pit, d, served);
            && r.rest == Unmatched(pit, d) && !r.hook && NoDup(r.served) && served <= r.served
            && forall f :: f in r.served <==> f in served || Wanted(pit, d, f)
  {
    hide Matches, NoDup;
    if pit != [] {
      var e, rest := pit[0], pit[1..];
      assert e in pit && forall x :: x in rest ==> x in pit;
      WantedStep(pit, d);
      if Matches(e.pkt, d) {
        ServeFacesIs(e.pending, served);
        ServeIs(rest, d, ServeFaces(e.pending, served));
      } else {
        ServeIs(rest, d, served);
      }
    }
  }

  lemma WantedStep(pit: seq<PitEntry>, d: Data)
    requires pit != []
    ensures forall f :: Wanted(pit, d, f) <==>
              (Matches(pit[0].pkt, d) && f in Waiting(pit[0].pending)) || Wanted(pit[1..], d, f)
  {
    hide Matches;
    assert pit[0] in pit && forall x :: x in pit <==> x == pit[0] || x in pit[1..];
  }

  lemma {:induction false} UnmatchedIs(pit: seq<PitEntry>, d: Data)
    ensures Sub(Unmatched(pit, d), pit)
    ensures forall p :: p in Pkts(Unmatched(pit, d)) ==> !Matches(p, d)
  {
    hide Matches;
    if pit != [] {
      UnmatchedIs(pit[1..], d);
      var rest := Unmatched(pit[1..], d);
      assert [] + rest == rest && ([pit[0]] + rest)[1..] == rest;
    }
  }

  lemma InvAllPending(s: State)
    requires Inv(s)
    ensures AllPending(s.pit)
  {
    hide Apart, NoneSame, NoDup, Listed;
    forall e | e in s.pit ensures e.pending != [] {
      assert EntryOk(s.faces, e);
    }
  }

  lemma HandleDataKeeps(s: State, maxCache: int, d: Data, now: int)
    requires Inv(s)
    ensures Inv(HandleData(s, maxCache, d, now))
  {
    hide EntryOk, Sub, NoDup, NoneSame, Listed, Matches, Known, ServePit;
    InvAllPending(s);
    assert NoDup([]) by { NothingTwice(); }
    ServeIs(s.pit, d, []);
    UnmatchedIs(s.pit, d);
    var pit := Unmatched(s.pit, d);
    SubPkts(pit, s.pit);
    SubSelf(s.contents);
    SubApart(Pkts(pit), Pkts(s.pit), s.contents, s.contents);
    SubNoneSame(Pkts(pit), Pkts(s.pit));
    forall e | e in pit ensures EntryOk(s.faces, e) {
      SubIn(pit, s.pit, e);
    }
  }

  lemma NothingTwice()
    ensures NoDup([])
  {
  }

  // ----- interests -----

  lemma {:induction false} FindHitMisses(contents: seq<CsEntry>, pkt: Interest)
    ensures FindHit(contents, pkt) == |contents| <==> forall c :: c in contents ==> !Hit(pkt, c)
  {
    hide Hit;
    if contents != [] {
      FindHitMisses(contents[1..], pkt);
      assert forall c :: c in contents <==> c == contents[0] || c in contents[1..];
    }
  }

  lemma {:induction false} FindSameMisses(pit: seq<PitEntry>, pkt: Interest)
    ensures FindSame(pit, pkt) == |pit| <==> forall p :: p in Pkts(pit) ==> !Same(p, pkt)
  {
    hide Same;
    if pit != [] {
      FindSameMisses(pit[1..], pkt);
    }
  }

  lemma NewInterest(pkts: seq<Interest>, pkt: Interest, contents: seq<CsEntry>)
    requires NoneSame(pkts) && (forall p :: p in pkts ==> !Same(p, pkt))
    requires Apart(pkts, contents) && (forall c :: c in contents ==> !Hit(pkt, c))
    ensures NoneSame([pkt] + pkts) && Apart([pkt] + pkts, contents)
  {
    hide Hit;
    var all := [pkt] + pkts;
    forall a, b | 0 <= a < b < |all| ensures !Same(all[a], all[b]) {
      assert all[b] == pkts[b - 1];
      if a == 0 {
        assert !Same(all[b], pkt);
      } else {
        assert all[a] == pkts[a - 1];
      }
    }
  }

  lemma WaitingEntryOk(faces: seq<Face>, e: PitEntry, from: nat, now: int)
    requires Listed(faces, from) && (e.pending == [] ==> e.from.None? || Listed(faces, e.from.value))
    requires e.pending != [] ==> EntryOk(faces, e)
    ensures EntryOk(faces, e.(pending := Append(e.pending, from, now)))
  {
    hide Listed;
    WaitingAppend(e.pending, from, now);
    var w := Waiting(e.pending);
    assert forall id :: id in w + [from] ==> id in w || id == from;
  }

  function Joined(e: PitEntry, from: nat, now: int): PitEntry {
    e.(pending := Append(e.pending, from, now))
  }

  lemma KnownInterestKeeps(s: State, k: nat, from: nat, now: int)
    requires Inv(s) && Listed(s.faces, from) && k < |s.pit|
    ensures Inv(s.(pit := s.pit[k := Joined(s.pit[k], from, now)]))
  {
    hide EntryOk, NoDup, NoneSame, Listed, Apart, Append;
    var e := s.pit[k];
    assert EntryOk(s.faces, e);
    PendingOfOk(s.faces, e);
    WaitingEntryOk(s.faces, e, from, now);
    PktsUpdate(s.pit, k, Joined(e, from, now));
  }

  lemma NewInterestKeeps(s: State, from: nat, pkt: Interest, now: int)
    requires Inv(s) && Listed(s.faces, from)
    requires FindHit(s.contents, pkt) == |s.contents| && FindSame(s.pit, pkt) == |s.pit|
    ensures var e := PitEntry(pkt, Some(from), [], now, 0);
            Inv(s.(pit := ([e] + s.pit)[0 := Joined(e, from, now)]))
  {
    hide EntryOk, NoDup, NoneSame, Listed, Hit, Same, Apart, Append;
    FindHitMisses(s.contents, pkt);
    FindSameMisses(s.pit, pkt);
    var e := PitEntry(pkt, Some(from), [], now, 0);
    NewInterest(Pkts(s.pit), pkt, s.contents);
    WaitingEntryOk(s.faces, e, from, now);
    assert ([e] + s.pit)[1..] == s.pit;
    PktsUpdate([e] + s.pit, 0, Joined(e, from, now));
  }

  lemma InvIgnores(s: State, trace: seq<Event>, nonces: seq<seq<Byte>>)
    ensures Inv(s) <==> Inv(s.(trace := trace, nonces := nonces))
  {
  }

  lemma HandleInterestKeeps(s: State, from: nat, pkt: Interest, now: int)
    requires Inv(s) && Listed(s.faces, from)
    ensures Inv(HandleInterest(s, from, pkt, now))
  {
    hide Inv, Listed, FindHit, FindSame, Propagated, FindOrAppend, ForwardingOk, Append;
    var t := HandleInterest(s, from, pkt, now);
    var k := FindSame(s.pit, pkt);
    InvIgnores(s, t.trace, t.nonces);
    if k < |s.pit| {
      KnownInterestKeeps(s, k, from, now);
      InvIgnores(s.(pit := s.pit[k := Joined(s.pit[k], from, now)]), t.trace, t.nonces);
    } else if FindHit(s.contents, pkt) == |s.contents| {
      var e := PitEntry(pkt, Some(from), [], now, 0);
      NewInterestKeeps(s, from, pkt, now);
      InvIgnores(s.(pit := ([e] + s.pit)[0 := Joined(e, from, now)]), t.trace, t.nonces);
    }
  }

  lemma PendingOfOk(faces: seq<Face>, e: PitEntry)
    requires EntryOk(faces, e)
    ensures e.pending != []
  {
  }
}
