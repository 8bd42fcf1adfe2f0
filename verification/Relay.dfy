/** The relay: its lists are searched and changed in place. */
module Relay {
  import opened Options
  import opened NdnTlv
  import opened Matching
  import opened RelayState

  lemma {:induction false} CommonSymmetric(a: seq<seq<Byte>>, b: seq<seq<Byte>>)
    ensures Common(a, b) == Common(b, a)
  {
    if a != [] && b != [] {
      CommonSymmetric(a[1..], b[1..]);
    }
  }

  /** A face that is already waiting gets a new time, another is put at the end. */
  method AddWaiting(pending: seq<Pending>, from: nat, now: int) returns (r: seq<Pending>)
    ensures r == Append(pending, from, now)
  {
    hide Append;
    var k := 0;
    assert pending[0..] == pending;
    while k < |pending|
      invariant 0 <= k <= |pending|
      invariant pending[..k] + Append(pending[k..], from, now) == Append(pending, from, now)
    {
      ghost var p, rest := pending[k], pending[k + 1..];
      AppendStep(pending[k..], from, now);
      assert pending[k..][1..] == rest;
      if pending[k].face == from {
        assert pending[k := Pending(from, now)] == pending[..k] + ([Pending(from, now)] + rest);
        return pending[k := Pending(from, now)];
      }
      assert pending[..k] + ([p] + Append(rest, from, now)) == pending[..k + 1] + Append(rest, from, now);
      k := k + 1;
    }
    AppendStep([], from, now);
    assert pending[k..] == [];
    r := pending + [Pending(from, now)];
  }

  /** The entries of a face are unlinked from a pending list. */
  method RemoveWaiting(pending: seq<Pending>, face: nat) returns (r: seq<Pending>)
    ensures r == Without(pending, face)
  {
    r := pending;
    var k := 0;
    assert r[0..] == r;
    while k < |r|
      invariant 0 <= k <= |r|
      invariant r[..k] + Without(r[k..], face) == Without(pending, face)
      decreases |r| - k
    {
      assert r[k..][1..] == r[k + 1..];
      if r[k].face == face {
        r := r[..k] + r[k + 1..];
      } else {
        k := k + 1;
      }
    }
    assert r[..k] == r;
  }

  lemma CleanStep(pit: seq<PitEntry>, f: nat)
    requires pit != []
    ensures var e := CleanEntry(pit[0], f);
            CleanPit(pit, f) == (if e.pending == [] then [] else [e]) + CleanPit(pit[1..], f)
  {
    hide Without;
  }

  lemma CleanEnd(f: nat)
    ensures CleanPit([], f) == []
  {
  }

  lemma AppendStep(pending: seq<Pending>, from: nat, now: int)
    ensures pending == [] ==> Append(pending, from, now) == [Pending(from, now)]
    ensures pending != [] && pending[0].face == from ==> Append(pending, from, now) == [Pending(from, now)] + pending[1..]
    ensures pending != [] && pending[0].face != from ==>
              Append(pending, from, now) == [pending[0]] + Append(pending[1..], from, now)
  {
  }

  lemma AgeStep(faces: seq<Face>, fib: seq<Route>, pit: seq<PitEntry>, now: int)
    requires pit != []
    ensures AgePit(pit, now)
         == (if TimedOut(pit[0], now) then [] else [pit[0].(retries := pit[0].retries + 1)]) + AgePit(pit[1..], now)
    ensures Retransmitted(faces, fib, pit, now)
         == (if TimedOut(pit[0], now) then [] else Propagated(faces, fib, pit[0])) + Retransmitted(faces, fib, pit[1..], now)
  {
    hide TimedOut, Propagated;
  }

  lemma AgeEnd(faces: seq<Face>, fib: seq<Route>, now: int)
    ensures AgePit([], now) == [] && Retransmitted(faces, fib, [], now) == []
  {
  }

  class Forwarder {
    var faces: seq<Face>
    var fib: seq<Route>
    var pit: seq<PitEntry>
    var contents: seq<CsEntry>
    var contentcnt: int
    var nonces: seq<seq<Byte>>
    var nextFace: nat
    const maxCache: int
    /** What has been received and sent. */
    ghost var trace: seq<Event>

    ghost function S(): State
      reads this
    {
      State(faces, fib, pit, contents, contentcnt, nonces, nextFace, trace)
    }

    constructor (maxCacheEntries: int)
      ensures S() == State([], [], [], [], 0, [], 0, []) && maxCache == maxCacheEntries
    {
      faces, fib, pit, contents, contentcnt, nonces, nextFace := [], [], [], [], 0, [], 0;
      maxCache := maxCacheEntries;
      trace := [];
    }

    /** The list is searched once; the search leaves behind the place of the last element but one,
        from which a full list is cut. */
    method NonceFindOrAppend(nonce: seq<Byte>) returns (dup: bool)
      modifies `nonces
      ensures (dup, nonces) == old(FindOrAppend(nonces, nonce))
    {
      var n, beforeLast := 0, None;
      while n < |nonces|
        invariant 0 <= n <= |nonces| && nonce !in nonces[..n]
        invariant beforeLast == if n >= 2 && n == |nonces| then Some(n - 2)
                                else if n >= 1 && n < |nonces| then Some(n - 1) else None
      {
        if nonces[n] == nonce {
          return true;
        }
        if n + 1 < |nonces| {
          beforeLast := Some(n);
        }
        n := n + 1;
      }
      assert nonces[..n] == nonces;
      if n >= MAX_NONCES && beforeLast.Some? {
        nonces := nonces[..beforeLast.value + 1];
      }
      nonces := [nonce] + nonces;
      dup := false;
    }

    method Propagate(e: PitEntry)
      modifies `trace
      ensures trace == old(trace) + Propagated(faces, fib, e)
    {
      var k := 0;
      assert fib[0..] == fib;
      while k < |fib|
        invariant 0 <= k <= |fib|
        invariant trace + Propagated(faces, fib[k..], e) == old(trace) + Propagated(faces, fib, e)
      {
        var fwd := fib[k];
        assert fib[k..][1..] == fib[k + 1..];
        k := k + 1;
        if fwd.suite == e.pkt.suite {
          var rc := PrefixCmp(fwd.prefix, None, e.pkt.name, Longest);
          CommonSymmetric(fwd.prefix.comps, e.pkt.name.comps);
          CommonIsPrefix(e.pkt.name.comps, fwd.prefix.comps);
          if rc >= |fwd.prefix.comps| {
            var back := false;
            if e.from.Some? && fwd.face == e.from.value {
              back := !FaceReflects(e.from.value);
            }
            if !back {
              trace := trace + [Forwarded(fwd.face, e.pkt)];
            }
          }
        }
      }
    }

    function FaceReflects(id: nat): bool
      reads this
    {
      Reflects(faces, id)
    }

    method AppendPending(i: nat, from: nat, now: int)
      requires i < |pit|
      modifies `pit
      ensures pit == old(pit[i := pit[i].(pending := Append(pit[i].pending, from, now))])
    {
      var pending := AddWaiting(pit[i].pending, from, now);
      pit := pit[i := pit[i].(pending := pending)];
    }

    method SearchContents(pkt: Interest) returns (k: nat)
      ensures k == FindHit(contents, pkt)
    {
      k := 0;
      assert contents[0..] == contents;
      while k < |contents|
        invariant 0 <= k <= |contents| && k + FindHit(contents[k..], pkt) == FindHit(contents, pkt)
      {
        if contents[k].data.suite == pkt.suite {
          var ok := CMatch(pkt, contents[k].data);
          if ok {
            return;
          }
        }
        assert contents[k..][1..] == contents[k + 1..];
        k := k + 1;
      }
    }

    method SearchPit(pkt: Interest) returns (k: nat)
      ensures k == FindSame(pit, pkt)
    {
      k := 0;
      assert pit[0..] == pit;
      while k < |pit|
        invariant 0 <= k <= |pit| && k + FindSame(pit[k..], pkt) == FindSame(pit, pkt)
      {
        var same := IsSame(pit[k].pkt, pkt);
        if same {
          return;
        }
        assert pit[k..][1..] == pit[k + 1..];
        k := k + 1;
      }
    }

    method HandleInterest(from: nat, pkt: Interest, now: int)
      modifies this
      ensures S() == old(RelayState.HandleInterest(S(), from, pkt, now))
    {
      hide Matches, Propagated, FindHit, FindSame;
      trace := trace + [Asked(from)];
      if HasNonce(pkt) {
        var dup := NonceFindOrAppend(pkt.nonce.value);
        if dup {
          return;
        }
      }
      var h := SearchContents(pkt);
      if h < |contents| {
        trace := trace + [Answered(from, contents[h].data)];
        return;
      }
      var i := SearchPit(pkt);
      if !ForwardingOk(pkt) {
        return;
      }
      if i == |pit| {
        pit := [PitEntry(pkt, Some(from), [], now, 0)] + pit;
        i := 0;
      }
      AppendPending(i, from, now);
      Propagate(pit[i]);
    }

    /** Each face is served once; matching entries are removed from the list while it is walked. */
    method ServePending(d: Data) returns (cnt: nat, isStatic: bool, served: seq<nat>)
      modifies `pit, `trace
      ensures var r := old(ServePit(pit, d, []));
              && pit == r.rest && served == r.served && isStatic == r.hook
              && cnt == (if r.hook then 1 else |r.served|)
              && trace == old(trace) + Answers(r.served, d)
    {
      hide Matches;
      served := [];
      var i := 0;
      assert pit[0..] == pit;
      ghost var all := ServePit(pit, d, []);
      while i < |pit|
        invariant 0 <= i <= |pit|
        invariant var r := ServePit(pit[i..], d, served); all == r.(rest := pit[..i] + r.rest)
        invariant trace == old(trace) + Answers(served, d)
        decreases |pit| - i
      {
        assert pit[i..][1..] == pit[i + 1..];
        var e := pit[i];
        var matching := CMatch(e.pkt, d);
        if !matching {
          i := i + 1;
        } else if e.pending == [] {
          pit := pit[..i] + pit[i + 1..];
          return 1, true, served;
        } else {
          served := Serve(e.pending, d, served, old(trace));
          pit := pit[..i] + pit[i + 1..];
        }
      }
      assert pit[..i] == pit;
      cnt := |served|;
      isStatic := false;
    }

    /** The faces of one entry that are not marked as served. */
    method Serve(pending: seq<Pending>, d: Data, marked: seq<nat>, ghost before: seq<Event>) returns (served: seq<nat>)
      requires trace == before + Answers(marked, d)
      modifies `trace
      ensures served == ServeFaces(pending, marked)
      ensures trace == before + Answers(served, d)
    {
      served := marked;
      var k := 0;
      assert pending[0..] == pending;
      while k < |pending|
        invariant 0 <= k <= |pending| && trace == before + Answers(served, d)
        invariant ServeFaces(pending[k..], served) == ServeFaces(pending, marked)
      {
        assert pending[k..][1..] == pending[k + 1..];
        var face := pending[k].face;
        if face !in served {
          assert Answers(served + [face], d) == Answers(served, d) + [Answered(face, d)];
          served := served + [face];
          trace := trace + [Answered(face, d)];
        }
        k := k + 1;
      }
    }

    method HandleContent(d: Data, now: int)
      modifies this
      ensures S() == old(RelayState.HandleData(S(), maxCache, d, now))
    {
      var k := 0;
      while k < |contents|
        invariant 0 <= k <= |contents| && forall j | 0 <= j < k :: contents[j].data.buf != d.buf
      {
        if contents[k].data.buf == d.buf {
          return;
        }
        k := k + 1;
      }
      var cnt, isStatic, served := ServePending(d);
      if cnt == 0 || maxCache == 0 {
        return;
      }
      contents := [CsEntry(d, now, isStatic, |served|)] + contents;
      contentcnt := contentcnt + 1;
    }

    method RemoveFace(i: nat)
      requires i < |faces|
      modifies this
      ensures S() == old(RelayState.RemoveFace(S(), i))
    {
      var f := faces[i].id;
      CleanPitOf(f);
      CleanFibOf(f);
      faces := faces[..i] + faces[i + 1..];
    }

    method CleanPitOf(f: nat)
      modifies `pit
      ensures pit == old(CleanPit(pit, f))
    {
      hide CleanPit, Without;
      var k := 0;
      assert pit[0..] == pit;
      while k < |pit|
        invariant 0 <= k <= |pit|
        invariant pit[..k] + CleanPit(pit[k..], f) == old(CleanPit(pit, f))
        decreases |pit| - k
      {
        ghost var done, rest := pit[..k], pit[k + 1..];
        CleanStep(pit[k..], f);
        assert pit[k..][1..] == rest;
        var e := pit[k];
        if e.from == Some(f) {
          e := e.(from := None);
        }
        var pending := RemoveWaiting(e.pending, f);
        e := e.(pending := pending);
        if pending != [] {
          pit := pit[k := e];
          k := k + 1;
          assert pit[..k] == done + [e] && pit[k..] == rest;
        } else {
          pit := pit[..k] + pit[k + 1..];
          assert pit[..k] == done && pit[k..] == rest;
        }
      }
      CleanEnd(f);
      assert pit[..k] == pit && pit[k..] == [];
    }

    method CleanFibOf(f: nat)
      modifies `fib
      ensures fib == old(CleanFib(fib, f))
    {
      var k := 0;
      assert fib[0..] == fib;
      while k < |fib|
        invariant 0 <= k <= |fib|
        invariant fib[..k] + CleanFib(fib[k..], f) == old(CleanFib(fib, f))
        decreases |fib| - k
      {
        assert fib[k..][1..] == fib[k + 1..];
        if fib[k].face == f {
          fib := fib[..k] + fib[k + 1..];
        } else {
          k := k + 1;
        }
      }
      assert fib[..k] == fib;
    }

    method DoAgeing(now: int)
      modifies this
      ensures S() == old(RelayState.Age(S(), now))
    {
      hide CleanPit, CleanFib;
      AgeContentStore(now);
      AgePendingInterests(now);
      var i := 0;
      ghost var s1 := S();
      while i < |faces|
        invariant 0 <= i <= |faces| && RelayState.AgeFaces(S(), i, now) == RelayState.AgeFaces(s1, 0, now)
        decreases |faces| - i
      {
        if Expired(faces[i], now) {
          RemoveFace(i);
        } else {
          i := i + 1;
        }
      }
    }

    method AgeContentStore(now: int)
      modifies `contents, `contentcnt
      ensures contents == old(AgeContents(contents, now))
      ensures contentcnt == old(contentcnt) - (|old(contents)| - |contents|)
    {
      var k := 0;
      assert contents[0..] == contents;
      while k < |contents|
        invariant 0 <= k <= |contents|
        invariant contents[..k] + AgeContents(contents[k..], now) == old(AgeContents(contents, now))
        invariant contentcnt == old(contentcnt) - (|old(contents)| - |contents|)
        decreases |contents| - k
      {
        assert contents[k..][1..] == contents[k + 1..];
        if Old(contents[k], now) {
          contents := contents[..k] + contents[k + 1..];
          contentcnt := contentcnt - 1;
        } else {
          k := k + 1;
        }
      }
      assert contents[..k] == contents;
    }

    method AgePendingInterests(now: int)
      modifies `pit, `trace
      ensures pit == old(AgePit(pit, now))
      ensures trace == old(trace) + old(Retransmitted(faces, fib, pit, now))
    {
      hide Propagated, TimedOut, AgePit, Retransmitted;
      var k := 0;
      assert pit[0..] == pit;
      while k < |pit|
        invariant 0 <= k <= |pit|
        invariant pit[..k] + AgePit(pit[k..], now) == old(AgePit(pit, now))
        invariant trace + Retransmitted(faces, fib, pit[k..], now) == old(trace) + old(Retransmitted(faces, fib, pit, now))
        decreases |pit| - k
      {
        ghost var done, rest, sent := pit[..k], pit[k + 1..], trace;
        AgeStep(faces, fib, pit[k..], now);
        assert pit[k..][1..] == rest;
        if TimedOut(pit[k], now) {
          pit := pit[..k] + pit[k + 1..];
          assert pit[..k] == done && pit[k..] == rest;
        } else {
          ghost var e := pit[k].(retries := pit[k].retries + 1);
          Propagate(pit[k]);
          pit := pit[k := pit[k].(retries := pit[k].retries + 1)];
          k := k + 1;
          assert pit[..k] == done + [e] && pit[k..] == rest;
        }
      }
      AgeEnd(faces, fib, now);
      assert pit[..k] == pit && pit[k..] == [];
    }

    /** The face of a peer, or of the local client; a new face is put in front. Without a given
        interface the first one of the peer's address family is taken. */
    method GetFaceOrCreate(ifs: seq<Interface>, ifndx: int, peer: Option<nat>, family: int, now: int)
      returns (id: Option<nat>)
      requires -1 <= ifndx < |ifs|
      modifies this
      ensures (id, S()) == old(FaceOrNone(S(), ifs, ifndx, peer, family, now))
    {
      hide FirstOf;
      var k := 0;
      assert faces[0..] == faces;
      while k < |faces|
        invariant 0 <= k <= |faces| && k + FindFace(faces[k..], ifndx, peer) == FindFace(faces, ifndx, peer)
      {
        if peer.None? {
          if faces[k].ifndx == -1 {
            return Some(faces[k].id);
          }
        } else if ifndx != -1 && faces[k].peer == peer {
          faces := faces[k := faces[k].(lastUsed := now)];
          return Some(faces[k].id);
        }
        assert faces[k..][1..] == faces[k + 1..];
        k := k + 1;
      }
      var ndx := ifndx;
      if peer.Some? && ifndx == -1 {
        ndx := FirstInterface(ifs, family);
        if ndx == -1 {
          return None;
        }
      }
      nextFace := nextFace + 1;
      var reflect := ndx >= 0 && ifs[ndx].reflect;
      faces := [Face(nextFace, if peer.None? then -1 else ndx, peer, reflect, false, now)] + faces;
      id := Some(nextFace);
    }

    /** A route is added as at start-up: its face will not expire. */
    method AddRoute(suite: Suite, prefix: Name, i: nat)
      requires i < |faces|
      modifies `fib, `faces
      ensures S() == old(RelayState.AddRoute(S(), suite, prefix, i))
    {
      faces := faces[i := faces[i].(isStatic := true)];
      fib := [Route(suite, prefix, faces[i].id)] + fib;
    }

    /** A frame arrives: its face is found or made, then its packets are dispatched in order. */
    method CoreRx(ifs: seq<Interface>, ifndx: int, peer: Option<nat>, family: int, msgs: seq<Message>, now: int)
      requires -1 <= ifndx < |ifs|
      modifies this
      ensures var (from, t) := old(FaceOrNone(S(), ifs, ifndx, peer, family, now));
              S() == if from.None? then t else HandleAll(t, maxCache, from.value, msgs, now)
    {
      hide FaceOrNone, RelayState.HandleInterest, RelayState.HandleData;
      var from := GetFaceOrCreate(ifs, ifndx, peer, family, now);
      if from.None? {
        return;
      }
      ghost var t := S();
      var i := 0;
      assert msgs[0..] == msgs;
      while i < |msgs|
        invariant 0 <= i <= |msgs|
        invariant HandleAll(S(), maxCache, from.value, msgs[i..], now) == HandleAll(t, maxCache, from.value, msgs, now)
      {
        assert msgs[i..][0] == msgs[i] && msgs[i..][1..] == msgs[i + 1..];
        match msgs[i] {
          case AnInterest(pkt) =>
            HandleInterest(from.value, pkt, now);
          case SomeData(d) =>
            HandleContent(d, now);
        }
        i := i + 1;
      }
    }
  }

  method FirstInterface(ifs: seq<Interface>, family: int) returns (ndx: int)
    ensures ndx == if FirstOf(ifs, family) == |ifs| then -1 else FirstOf(ifs, family)
  {
    ndx := 0;
    assert ifs[0..] == ifs;
    while ndx < |ifs|
      invariant 0 <= ndx <= |ifs| && ndx + FirstOf(ifs[ndx..], family) == FirstOf(ifs, family)
    {
      if ifs[ndx].family == family {
        return;
      }
      assert ifs[ndx..][1..] == ifs[ndx + 1..];
      ndx := ndx + 1;
    }
    ndx := -1;
  }
}
