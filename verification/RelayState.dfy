/** The state of a relay and what each of its operations makes of it. */
module RelayState {
  import opened Options
  import opened NdnTlv
  import opened Matching

  const MAX_NONCES: nat := 256
  const CONTENT_TIMEOUT: int := 30
  const INTEREST_TIMEOUT: int := 4
  const FACE_TIMEOUT: int := 15
  const MAX_RETRANSMIT: int := 2

  /** Face ids are never reused; they stand for the pointers to faces. */
  datatype Face = Face(id: nat, ifndx: int, peer: Option<nat>, reflect: bool, isStatic: bool, lastUsed: int)

  datatype Route = Route(suite: Suite, prefix: Name, face: nat)

  datatype Pending = Pending(face: nat, lastUsed: int)

  datatype PitEntry = PitEntry(pkt: Interest, from: Option<nat>, pending: seq<Pending>, lastUsed: int, retries: int)

  datatype CsEntry = CsEntry(data: Data, lastUsed: int, isStatic: bool, served: int)

  /** What has passed a face: an interest received, a data packet or an interest sent. */
  datatype Event = Asked(face: nat) | Answered(face: nat, data: Data) | Forwarded(face: nat, pkt: Interest)

  /** Lists have the order of the program's linked lists; the trace is the order of events. */
  datatype State = State(faces: seq<Face>, fib: seq<Route>, pit: seq<PitEntry>, contents: seq<CsEntry>,
                         contentcnt: int, nonces: seq<seq<Byte>>, nextFace: nat, trace: seq<Event>)

  // ----- nonces -----

  /** Duplicate, or the list with the new nonce; a full list loses its last. */
  function FindOrAppend(nonces: seq<seq<Byte>>, nonce: seq<Byte>): (bool, seq<seq<Byte>>) {
    if nonce in nonces then (true, nonces)
    else (false, [nonce] + if |nonces| >= MAX_NONCES then nonces[..|nonces| - 1] else nonces)
  }

  predicate HasNonce(i: Interest) {
    i.suite == Ndn && i.nonce.Some?
  }

  // ----- pending faces -----

  function Waiting(pending: seq<Pending>): seq<nat> {
    if pending == [] then [] else [pending[0].face] + Waiting(pending[1..])
  }

  function Append(pending: seq<Pending>, face: nat, now: int): (r: seq<Pending>)
    ensures r != []
  {
    if pending == [] then [Pending(face, now)]
    else if pending[0].face == face then [Pending(face, now)] + pending[1..]
    else [pending[0]] + Append(pending[1..], face, now)
  }

  function Without(pending: seq<Pending>, face: nat): seq<Pending> {
    if pending == [] then []
    else (if pending[0].face == face then [] else [pending[0]]) + Without(pending[1..], face)
  }

  // ----- propagation -----

  function Reflects(faces: seq<Face>, id: nat): bool {
    faces != [] && (if faces[0].id == id then faces[0].reflect else Reflects(faces[1..], id))
  }

  /** An interest goes out on a route of its suite whose prefix it extends, but not back to where
      it came from, unless that face reflects. */
  predicate Takes(faces: seq<Face>, r: Route, e: PitEntry) {
    && r.suite == e.pkt.suite && r.prefix.comps <= e.pkt.name.comps
    && (e.from.None? || r.face != e.from.value || Reflects(faces, e.from.value))
  }

  function Propagated(faces: seq<Face>, fib: seq<Route>, e: PitEntry): seq<Event> {
    if fib == [] then []
    else (if Takes(faces, fib[0], e) then [Forwarded(fib[0].face, e.pkt)] else []) + Propagated(faces, fib[1..], e)
  }

  // ----- searches -----

  /** The place of the first entry, or the length of the list. */
  function FindSame(pit: seq<PitEntry>, pkt: Interest): (k: nat)
    ensures k <= |pit|
  {
    if pit == [] || Same(pit[0].pkt, pkt) then 0 else 1 + FindSame(pit[1..], pkt)
  }

  predicate Hit(pkt: Interest, c: CsEntry) {
    c.data.suite == pkt.suite && Matches(pkt, c.data)
  }

  function FindHit(contents: seq<CsEntry>, pkt: Interest): (k: nat)
    ensures k <= |contents|
  {
    if contents == [] || Hit(pkt, contents[0]) then 0 else 1 + FindHit(contents[1..], pkt)
  }

  predicate Known(contents: seq<CsEntry>, buf: seq<Byte>) {
    exists c :: c in contents && c.data.buf == buf
  }

  // ----- an interest arrives -----

  function HandleInterest(s: State, from: nat, pkt: Interest, now: int): State {
    var s0 := s.(trace := s.trace + [Asked(from)]);
    if HasNonce(pkt) && FindOrAppend(s0.nonces, pkt.nonce.value).0 then s0
    else
      var s1 := if HasNonce(pkt) then s0.(nonces := FindOrAppend(s0.nonces, pkt.nonce.value).1) else s0;
      var h := FindHit(s1.contents, pkt);
      if h < |s1.contents| then s1.(trace := s1.trace + [Answered(from, s1.contents[h].data)])
      else if !ForwardingOk(pkt) then s1
      else
        var k := FindSame(s1.pit, pkt);
        var pit := if k < |s1.pit| then s1.pit else [PitEntry(pkt, Some(from), [], now, 0)] + s1.pit;
        var j := if k < |s1.pit| then k else 0;
        var e := pit[j].(pending := Append(pit[j].pending, from, now));
        s1.(pit := pit[j := e], trace := s1.trace + Propagated(s1.faces, s1.fib, e))
  }

  // ----- data arrives -----

  /** Faces served by one entry, behind those already served. */
  function ServeFaces(pending: seq<Pending>, served: seq<nat>): seq<nat> {
    if pending == [] then served
    else ServeFaces(pending[1..], if pending[0].face in served then served else served + [pending[0].face])
  }

  /** What is left of the PIT, the faces served, and whether an entry without faces was met. */
  datatype Service = Service(rest: seq<PitEntry>, served: seq<nat>, hook: bool)

  function ServePit(pit: seq<PitEntry>, d: Data, served: seq<nat>): Service {
    if pit == [] then Service([], served, false)
    else if !Matches(pit[0].pkt, d) then
      var r := ServePit(pit[1..], d, served);
      r.(rest := [pit[0]] + r.rest)
    else if pit[0].pending == [] then Service(pit[1..], served, true)
    else ServePit(pit[1..], d, ServeFaces(pit[0].pending, served))
  }

  function Answers(served: seq<nat>, d: Data): seq<Event> {
    seq(|served|, i requires 0 <= i < |served| => Answered(served[i], d))
  }

  function HandleData(s: State, maxCache: int, d: Data, now: int): State {
    if Known(s.contents, d.buf) then s
    else
      var r := ServePit(s.pit, d, []);
      var s1 := s.(pit := r.rest, trace := s.trace + Answers(r.served, d));
      if (!r.hook && r.served == []) || maxCache == 0 then s1
      else s1.(contents := [CsEntry(d, now, r.hook, |r.served|)] + s1.contents, contentcnt := s1.contentcnt + 1)
  }

  // ----- faces come and go -----

  function CleanEntry(e: PitEntry, face: nat): PitEntry {
    e.(from := if e.from == Some(face) then None else e.from, pending := Without(e.pending, face))
  }

  /** The PIT without a face, and without entries for which no face is left. */
  function CleanPit(pit: seq<PitEntry>, face: nat): seq<PitEntry> {
    if pit == [] then []
    else
      var e := CleanEntry(pit[0], face);
      (if e.pending == [] then [] else [e]) + CleanPit(pit[1..], face)
  }

  function CleanFib(fib: seq<Route>, face: nat): seq<Route> {
    if fib == [] then [] else (if fib[0].face == face then [] else [fib[0]]) + CleanFib(fib[1..], face)
  }

  function RemoveFace(s: State, i: nat): State
    requires i < |s.faces|
  {
    var f := s.faces[i].id;
    s.(pit := CleanPit(s.pit, f), fib := CleanFib(s.fib, f), faces := s.faces[..i] + s.faces[i + 1..])
  }

  // ----- ageing -----

  predicate Old(c: CsEntry, now: int) {
    c.lastUsed + CONTENT_TIMEOUT <= now && !c.isStatic
  }

  function AgeContents(contents: seq<CsEntry>, now: int): (r: seq<CsEntry>)
    ensures |r| <= |contents|
  {
    if contents == [] then []
    else (if Old(contents[0], now) then [] else [contents[0]]) + AgeContents(contents[1..], now)
  }

  predicate TimedOut(e: PitEntry, now: int) {
    e.lastUsed + INTEREST_TIMEOUT <= now || e.retries > MAX_RETRANSMIT
  }

  function AgePit(pit: seq<PitEntry>, now: int): seq<PitEntry> {
    if pit == [] then []
    else (if TimedOut(pit[0], now) then [] else [pit[0].(retries := pit[0].retries + 1)]) + AgePit(pit[1..], now)
  }

  /** Interests sent again while the PIT ages. */
  function Retransmitted(faces: seq<Face>, fib: seq<Route>, pit: seq<PitEntry>, now: int): seq<Event> {
    if pit == [] then []
    else (if TimedOut(pit[0], now) then [] else Propagated(faces, fib, pit[0])) + Retransmitted(faces, fib, pit[1..], now)
  }

  predicate Expired(f: Face, now: int) {
    !f.isStatic && f.lastUsed + FACE_TIMEOUT <= now
  }

  function AgeFaces(s: State, i: nat, now: int): State
    requires i <= |s.faces|
    decreases |s.faces| - i
  {
    if i == |s.faces| then s
    else if Expired(s.faces[i], now) then AgeFaces(RemoveFace(s, i), i, now)
    else AgeFaces(s, i + 1, now)
  }

  function AgeLists(s: State, now: int): State {
    var contents := AgeContents(s.contents, now);
    s.(contents := contents, contentcnt := s.contentcnt - (|s.contents| - |contents|),
       pit := AgePit(s.pit, now), trace := s.trace + Retransmitted(s.faces, s.fib, s.pit, now))
  }

  function Age(s: State, now: int): State {
    AgeFaces(AgeLists(s, now), 0, now)
  }

  // ----- finding faces -----

  /** A local client is the face without interface; a peer is known by its address. */
  predicate IsFace(f: Face, ifndx: int, peer: Option<nat>) {
    if peer.None? then f.ifndx == -1 else ifndx != -1 && f.peer == peer
  }

  function FindFace(faces: seq<Face>, ifndx: int, peer: Option<nat>): (k: nat)
    ensures k <= |faces|
  {
    if faces == [] || IsFace(faces[0], ifndx, peer) then 0 else 1 + FindFace(faces[1..], ifndx, peer)
  }

  function FaceFor(s: State, ifndx: int, peer: Option<nat>, reflect: bool, now: int): (nat, State) {
    var k := FindFace(s.faces, ifndx, peer);
    if k < |s.faces| then
      (s.faces[k].id, if peer.None? then s else s.(faces := s.faces[k := s.faces[k].(lastUsed := now)]))
    else
      var f := Face(s.nextFace + 1, if peer.None? then -1 else ifndx, peer, reflect && ifndx >= 0, false, now);
      (f.id, s.(faces := [f] + s.faces, nextFace := f.id))
  }

  datatype Interface = Interface(family: int, reflect: bool)

  /** The first interface of an address family, or their number. */
  function FirstOf(ifs: seq<Interface>, family: int): (k: nat)
    ensures k <= |ifs| && (k < |ifs| ==> ifs[k].family == family)
    ensures forall j :: 0 <= j < k ==> ifs[j].family != family
  {
    if ifs == [] || ifs[0].family == family then 0 else 1 + FirstOf(ifs[1..], family)
  }

  /** A peer without a given interface always gets a new face, on the first interface of its
      family, or none if there is no such interface. */
  function FaceOnAny(s: State, ifs: seq<Interface>, peer: nat, family: int, now: int): (Option<nat>, State) {
    var j := FirstOf(ifs, family);
    if j == |ifs| then (None, s)
    else
      var f := Face(s.nextFace + 1, j, Some(peer), ifs[j].reflect, false, now);
      (Some(f.id), s.(faces := [f] + s.faces, nextFace := f.id))
  }

  function FaceOrNone(s: State, ifs: seq<Interface>, ifndx: int, peer: Option<nat>, family: int, now: int): (Option<nat>, State)
    requires -1 <= ifndx < |ifs|
  {
    if peer.Some? && ifndx == -1 then FaceOnAny(s, ifs, peer.value, family, now)
    else
      var (from, t) := FaceFor(s, ifndx, peer, ifndx >= 0 && ifs[ifndx].reflect, now);
      (Some(from), t)
  }

  function AddRoute(s: State, suite: Suite, prefix: Name, i: nat): State
    requires i < |s.faces|
  {
    s.(faces := s.faces[i := s.faces[i].(isStatic := true)], fib := [Route(suite, prefix, s.faces[i].id)] + s.fib)
  }

  // ----- steps -----

  datatype Message = AnInterest(pkt: Interest) | SomeData(data: Data)

  /** A packet comes in from a peer or the local client, a second passes, a face is removed, or a
      route is added. */
  datatype Step =
    | Receive(ifndx: int, peer: Option<nat>, reflect: bool, msg: Message, now: int)
    | Tick(now: int)
    | Drop(i: nat)
    | Configure(suite: Suite, prefix: Name, i: nat)

  function Handle(s: State, maxCache: int, from: nat, msg: Message, now: int): State {
    match msg
    case AnInterest(pkt) => HandleInterest(s, from, pkt, now)
    case SomeData(d) => HandleData(s, maxCache, d, now)
  }

  /** The packets of a frame are handled one after the other, for the face of the frame. */
  function HandleAll(s: State, maxCache: int, from: nat, msgs: seq<Message>, now: int): State
    decreases |msgs|
  {
    if msgs == [] then s else HandleAll(Handle(s, maxCache, from, msgs[0], now), maxCache, from, msgs[1..], now)
  }

  function Apply(s: State, maxCache: int, step: Step): State {
    match step
    case Receive(ifndx, peer, reflect, msg, now) =>
      var (from, t) := FaceFor(s, ifndx, peer, reflect, now);
      Handle(t, maxCache, from, msg, now)
    case Tick(now) => Age(s, now)
    case Drop(i) => if i < |s.faces| then RemoveFace(s, i) else s
    case Configure(suite, prefix, i) => if i < |s.faces| then AddRoute(s, suite, prefix, i) else s
  }
}
