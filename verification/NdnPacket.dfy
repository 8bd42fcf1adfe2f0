/** NDN Interest and Data packets: composed backwards in a buffer, parsed forwards. */
module NdnPacket {
  import opened Options
  import opened NdnTlv

  const TLV_INTEREST := 0x05
  const TLV_DATA := 0x06
  const TLV_NAME := 0x07
  const TLV_COMPONENT := 0x08
  const TLV_SELECTORS := 0x09
  const TLV_NONCE := 0x0a
  const TLV_SCOPE := 0x0b
  const TLV_LIFETIME := 0x0c
  const TLV_MIN_SUFFIX := 0x0d
  const TLV_MAX_SUFFIX := 0x0e
  const TLV_MUST_BE_FRESH := 0x12
  const TLV_META_INFO := 0x14
  const TLV_CONTENT := 0x15
  const TLV_SIGNATURE_INFO := 0x16
  const TLV_SIGNATURE_VALUE := 0x17
  const TLV_FINAL_BLOCK_ID := 0x1a
  const TLV_SIGNATURE_TYPE := 0x1b
  const TLV_KEY_LOCATOR := 0x1c
  const TLV_FRAGMENT_PAYLOAD := 0x52
  const TLV_BEGIN_END_FIELDS := 0x5c
  const TLV_FRAGMENT := 0x64

  const SEGMENT_MARKER: Byte := 0x00
  const MAX_NAME_COMP: nat := 64

  // ----- integers of one, two, four or eight bytes -----

  function ByteCount(v: nat): (n: nat) {
    if v == 0 then 0 else 1 + ByteCount(v / 256)
  }

  /** Zero bytes that fill a number of `len` bytes up to the next permitted width. */
  const FILL: seq<nat> := [1, 0, 0, 1, 0, 3, 2, 1, 0]

  function IntWidth(v: nat): (n: nat) {
    if v <= 0xff then 1 else if v <= 0xffff then 2 else 4
  }

  function IntBytes(v: nat): seq<Byte> {
    BigEndian(v, IntWidth(v))
  }

  lemma WidthIsFilled(v: nat)
    requires v <= 0xffff_ffff
    ensures ByteCount(v) <= 4 && ByteCount(v) + FILL[ByteCount(v)] == IntWidth(v)
  {
    assert ByteCount(v / 256 / 256 / 256 / 256) == 0;
    assert v / 256 / 256 / 256 / 256 == 0;
    assert ByteCount(v / 256 / 256 / 256) == if v <= 0xff_ffff then 0 else 1;
    assert ByteCount(v / 256 / 256) == if v <= 0xffff then 0 else if v <= 0xff_ffff then 1 else 2;
  }

  lemma IntBytesRead(v: nat)
    requires v <= 0xffff_ffff
    ensures NonNegInt(IntBytes(v)) == v
  {
    Power256Values();
    BigEndianReads(v, IntWidth(v));
  }

  /** The significant bytes of a number. */
  method PrependNonNegIntVal(w: Writer, val: nat) returns (ok: bool)
    requires w.Valid() && val <= 0xffff_ffff
    modifies w, w.buf
    ensures w.Valid()
    ensures ok <==> IntWidth(val) <= old(w.offset)
    ensures ok ==> w.out == IntBytes(val) + old(w.out)
  {
    hide Writer.Valid;
    WidthIsFilled(val);
    ghost var width := IntWidth(val);
    var v, len := val, 0;
    while v != 0
      invariant w.Valid() && w.offset + len == old(w.offset) && len + ByteCount(v) == ByteCount(val)
      invariant BigEndian(val, width) + old(w.out) == BigEndian(v, width - len) + w.out
    {
      BigEndianShift(v, width - len, w.out);
      ok := w.PrependByte(v % 256);
      if !ok {
        return;
      }
      len := len + 1;
      v := v / 256;
    }
    var i := FILL[len];
    while i > 0
      invariant 0 <= i && w.Valid() && w.offset + len == old(w.offset) && len + i == width
      invariant BigEndian(val, width) + old(w.out) == BigEndian(0, i) + w.out
    {
      BigEndianShift(0, i, w.out);
      ok := w.PrependByte(0);
      if !ok {
        return;
      }
      len := len + 1;
      i := i - 1;
    }
    ok := true;
  }

  method PrependNonNegInt(w: Writer, typ: nat, val: nat) returns (ok: bool)
    requires w.Valid() && val <= 0xffff_ffff
    modifies w, w.buf
    ensures w.Valid()
    ensures ok <==> |Field(typ, IntBytes(val))| <= old(w.offset)
    ensures ok ==> w.out == Field(typ, IntBytes(val)) + old(w.out)
  {
    hide Head, Writer.Valid, VarSize;
    var oldoffset := w.offset;
    ok := PrependNonNegIntVal(w, val);
    if ok {
      ok := w.PrependTL(typ, oldoffset - w.offset);
    }
  }

  /** A marker byte and an integer: the convention for chunk numbers. */
  function Marked(val: nat): seq<Byte> {
    [SEGMENT_MARKER] + IntBytes(val)
  }

  method PrependIncludedNonNegInt(w: Writer, typ: nat, val: nat) returns (ok: bool)
    requires w.Valid() && val <= 0xffff_ffff
    modifies w, w.buf
    ensures w.Valid()
    ensures ok <==> |Field(typ, Marked(val))| <= old(w.offset)
    ensures ok ==> w.out == Field(typ, Marked(val)) + old(w.out)
  {
    hide Head, Writer.Valid, VarSize;
    var oldoffset := w.offset;
    ok := PrependNonNegIntVal(w, val);
    if ok {
      ok := w.PrependByte(SEGMENT_MARKER);
      if ok {
        assert w.out == Marked(val) + old(w.out);
        ok := w.PrependTL(typ, oldoffset - w.offset);
      }
    }
  }

  // ----- names -----

  datatype Name = Name(comps: seq<seq<Byte>>, chunknum: Option<nat>)

  /** The chunk number is written as one more component. */
  function AllComps(n: Name): seq<seq<Byte>> {
    match n.chunknum
    case None => n.comps
    case Some(k) => n.comps + [Marked(k)]
  }

  /** The coded components from number `i` on. */
  function Components(comps: seq<seq<Byte>>, i: nat): seq<Byte>
    requires i <= |comps|
    decreases |comps| - i
  {
    if i == |comps| then [] else Field(TLV_COMPONENT, comps[i]) + Components(comps, i + 1)
  }

  function NameBytes(n: Name): seq<Byte> {
    Field(TLV_NAME, Components(AllComps(n), 0))
  }

  lemma {:induction false} ComponentsAppend(comps: seq<seq<Byte>>, last: seq<Byte>, i: nat)
    requires i <= |comps|
    ensures Components(comps + [last], i) == Components(comps, i) + Field(TLV_COMPONENT, last)
    decreases |comps| - i
  {
    hide Field;
    if i < |comps| {
      ComponentsAppend(comps, last, i + 1);
    } else {
      assert Components(comps + [last], i + 1) == [];
    }
  }

  lemma {:induction false} ComponentsShorter(comps: seq<seq<Byte>>, i: nat, j: nat)
    requires i <= j <= |comps|
    ensures |Components(comps, j)| <= |Components(comps, i)|
    decreases j - i
  {
    hide Field;
    if i < j {
      ComponentsShorter(comps, i + 1, j);
    }
  }

  predicate WritableName(n: Name) {
    n.chunknum.Some? ==> n.chunknum.value <= 0xffff_ffff
  }

  lemma ComponentsStep(comps: seq<seq<Byte>>, i: nat)
    requires i < |comps|
    ensures Components(comps, i) == Field(TLV_COMPONENT, comps[i]) + Components(comps, i + 1)
    ensures |Components(comps, i)| <= |Components(comps, 0)|
  {
    ComponentsShorter(comps, 0, i);
  }

  lemma ComponentsEnd(comps: seq<seq<Byte>>)
    ensures Components(comps, |comps|) == []
  {
  }

  method PrependComponents(w: Writer, comps: seq<seq<Byte>>) returns (ok: bool)
    requires w.Valid()
    modifies w, w.buf
    ensures w.Valid()
    ensures ok <==> |Components(comps, 0)| <= old(w.offset)
    ensures ok ==> w.out == Components(comps, 0) + old(w.out)
  {
    hide Field, Components, Writer.Valid;
    var cnt := |comps|;
    ComponentsEnd(comps);
    while cnt > 0
      invariant 0 <= cnt <= |comps| && w.Valid()
      invariant w.out == Components(comps, cnt) + old(w.out)
    {
      cnt := cnt - 1;
      ComponentsStep(comps, cnt);
      ok := w.PrependBlob(TLV_COMPONENT, comps[cnt]);
      if !ok {
        return;
      }
    }
    ok := true;
  }

  method PrependAllComps(w: Writer, name: Name) returns (ok: bool)
    requires w.Valid() && WritableName(name)
    modifies w, w.buf
    ensures w.Valid()
    ensures ok <==> |Components(AllComps(name), 0)| <= old(w.offset)
    ensures ok ==> w.out == Components(AllComps(name), 0) + old(w.out)
  {
    hide Components, Field, Marked, Writer.Valid;
    if name.chunknum.Some? {
      ComponentsAppend(name.comps, Marked(name.chunknum.value), 0);
      ok := PrependIncludedNonNegInt(w, TLV_COMPONENT, name.chunknum.value);
      if !ok {
        return;
      }
    }
    ok := PrependComponents(w, name.comps);
  }

  method PrependName(w: Writer, name: Name) returns (ok: bool)
    requires w.Valid() && WritableName(name)
    modifies w, w.buf
    ensures w.Valid()
    ensures ok <==> |NameBytes(name)| <= old(w.offset)
    ensures ok ==> w.out == NameBytes(name) + old(w.out)
  {
    hide Components, Head, AllComps, Writer.Valid;
    var oldoffset := w.offset;
    ok := PrependAllComps(w, name);
    if ok {
      ok := w.PrependTL(TLV_NAME, oldoffset - w.offset);
    }
  }

  // ----- composition of packets -----

  function Optional(o: Option<seq<Byte>>, typ: nat): seq<Byte> {
    match o
    case None => []
    case Some(v) => Field(typ, v)
  }

  function ScopeBytes(scope: int): Option<seq<Byte>> {
    if scope >= 0 then Some(IntBytes(scope)) else None
  }

  const DEFAULT_LIFETIME: seq<Byte> := [0x0f, 0xa0]

  function InterestTail(scope: int, nonce: Option<seq<Byte>>): seq<Byte> {
    Optional(nonce, TLV_NONCE) + (Field(TLV_LIFETIME, DEFAULT_LIFETIME) + Optional(ScopeBytes(scope), TLV_SCOPE))
  }

  function InterestBody(name: Name, scope: int, nonce: Option<seq<Byte>>): seq<Byte> {
    NameBytes(name) + InterestTail(scope, nonce)
  }

  function InterestBytes(name: Name, scope: int, nonce: Option<seq<Byte>>): seq<Byte> {
    Field(TLV_INTEREST, InterestBody(name, scope, nonce))
  }

  /** What follows the name, from back to front. */
  method PrependInterestTail(w: Writer, scope: int, nonce: Option<seq<Byte>>) returns (ok: bool)
    requires w.Valid()
    modifies w, w.buf
    ensures w.Valid()
    ensures ok <==> scope <= 2 && |InterestTail(scope, nonce)| <= old(w.offset)
    ensures ok ==> w.out == InterestTail(scope, nonce) + old(w.out)
  {
    hide Field, Writer.Valid, IntBytes;
    if scope >= 0 {
      if scope > 2 {
        return false;
      }
      ok := PrependNonNegInt(w, TLV_SCOPE, scope);
      if !ok {
        return;
      }
    }
    ok := w.PrependBlob(TLV_LIFETIME, DEFAULT_LIFETIME);
    if ok && nonce.Some? {
      ok := w.PrependBlob(TLV_NONCE, nonce.value);
    }
  }

  /** Returns the length of the packet, or -1 if the scope is out of range or there is no room. */
  method PrependInterest(w: Writer, name: Name, scope: int, nonce: Option<seq<Byte>>) returns (rc: int)
    requires w.Valid() && WritableName(name)
    modifies w, w.buf
    ensures w.Valid()
    ensures rc == -1 <==> scope > 2 || |InterestBytes(name, scope, nonce)| > old(w.offset)
    ensures rc != -1 ==> rc == |InterestBytes(name, scope, nonce)| && w.out == InterestBytes(name, scope, nonce) + old(w.out)
  {
    hide Head, Writer.Valid, NameBytes, InterestTail;
    var oldoffset := w.offset;
    var ok := PrependInterestTail(w, scope, nonce);
    if !ok {
      return -1;
    }
    ok := PrependName(w, name);
    if !ok {
      return -1;
    }
    ok := w.PrependTL(TLV_INTEREST, oldoffset - w.offset);
    rc := if ok then oldoffset - w.offset else -1;
  }

  function MetaInfo(finalBlockId: Option<nat>): seq<Byte> {
    match finalBlockId
    case None => []
    case Some(id) => Field(TLV_FINAL_BLOCK_ID, Field(TLV_COMPONENT, Marked(id)))
  }

  const SIGNATURE_INFO: seq<Byte> := Field(TLV_SIGNATURE_TYPE, [0]) + Head(TLV_KEY_LOCATOR, 0)

  function DataBody(name: Name, payload: seq<Byte>, finalBlockId: Option<nat>): seq<Byte> {
    NameBytes(name) + (Field(TLV_META_INFO, MetaInfo(finalBlockId)) + (Field(TLV_CONTENT, payload) +
    (Field(TLV_SIGNATURE_INFO, SIGNATURE_INFO) + Head(TLV_SIGNATURE_VALUE, 0))))
  }

  function DataBytes(name: Name, payload: seq<Byte>, finalBlockId: Option<nat>): seq<Byte> {
    Field(TLV_DATA, DataBody(name, payload, finalBlockId))
  }

  method PrependSignature(w: Writer) returns (rc: int)
    requires w.Valid()
    modifies w, w.buf
    ensures w.Valid()
    ensures var s := Field(TLV_SIGNATURE_INFO, SIGNATURE_INFO) + Head(TLV_SIGNATURE_VALUE, 0);
            (rc == 0 <==> |s| <= old(w.offset)) && (rc == 0 ==> w.out == s + old(w.out))
    ensures rc == 0 || rc == -1 || rc == 1
    ensures rc == 1 <==> 4 <= old(w.offset) < 7
  {
    hide Writer.Valid;
    var ok := w.PrependTL(TLV_SIGNATURE_VALUE, 0);
    if !ok {
      return -1;
    }
    var oldoffset2 := w.offset;
    ok := w.PrependTL(TLV_KEY_LOCATOR, 0);
    if !ok {
      return -1;
    }
    ok := w.PrependBlob(TLV_SIGNATURE_TYPE, [0]);
    if !ok {
      return 1;
    }
    ok := w.PrependTL(TLV_SIGNATURE_INFO, oldoffset2 - w.offset);
    rc := if ok then 0 else -1;
  }

  method PrependMetaInfo(w: Writer, finalBlockId: Option<nat>) returns (ok: bool)
    requires w.Valid() && (finalBlockId.Some? ==> finalBlockId.value <= 0xffff_ffff)
    modifies w, w.buf
    ensures w.Valid()
    ensures ok <==> |Field(TLV_META_INFO, MetaInfo(finalBlockId))| <= old(w.offset)
    ensures ok ==> w.out == Field(TLV_META_INFO, MetaInfo(finalBlockId)) + old(w.out)
  {
    hide Writer.Valid, Head, Marked, VarSize;
    var oldoffset2 := w.offset;
    if finalBlockId.Some? {
      ok := PrependIncludedNonNegInt(w, TLV_COMPONENT, finalBlockId.value);
      if !ok {
        return;
      }
      ok := w.PrependTL(TLV_FINAL_BLOCK_ID, oldoffset2 - w.offset);
      if !ok {
        return;
      }
    }
    ok := w.PrependTL(TLV_META_INFO, oldoffset2 - w.offset);
  }

  /** Returns the length of the packet; without room, -1, or 1 where the program forgets the sign. */
  method PrependContent(w: Writer, name: Name, payload: seq<Byte>, finalBlockId: Option<nat>) returns (rc: int)
    requires w.Valid() && WritableName(name) && (finalBlockId.Some? ==> finalBlockId.value <= 0xffff_ffff)
    modifies w, w.buf
    ensures w.Valid()
    ensures rc > 1 <==> |DataBytes(name, payload, finalBlockId)| <= old(w.offset)
    ensures rc > 1 ==> rc == |DataBytes(name, payload, finalBlockId)|
                       && w.out == DataBytes(name, payload, finalBlockId) + old(w.out)
    ensures rc <= 1 ==> rc == if 4 <= old(w.offset) < 7 then 1 else -1
  {
    hide Head, Writer.Valid, NameBytes, Field;
    var oldoffset := w.offset;
    DataSizes(name, payload, finalBlockId);
    rc := PrependSignature(w);
    if rc != 0 {
      return;
    }
    var ok := w.PrependBlob(TLV_CONTENT, payload);
    if !ok {
      return -1;
    }
    ok := PrependMetaInfo(w, finalBlockId);
    if !ok {
      return -1;
    }
    ok := PrependName(w, name);
    if !ok {
      return -1;
    }
    ok := w.PrependTL(TLV_DATA, oldoffset - w.offset);
    rc := if ok then oldoffset - w.offset else -1;
  }

  lemma DataSizes(name: Name, payload: seq<Byte>, finalBlockId: Option<nat>)
    ensures DataBytes(name, payload, finalBlockId)
         == Head(TLV_DATA, |DataBody(name, payload, finalBlockId)|) + DataBody(name, payload, finalBlockId)
    ensures |Field(TLV_SIGNATURE_INFO, SIGNATURE_INFO) + Head(TLV_SIGNATURE_VALUE, 0)| == 9
  {
    hide NameBytes, Components;
  }

  // ----- parsing -----

  datatype Kind = Interest | Data | Fragment

  /** A parsed packet; `val` is shared by the final block id and the fragment number. */
  datatype Packet = Packet(kind: Kind, name: Option<Name>, nonce: Option<seq<Byte>>, scope: int,
                           minsuffix: int, maxsuffix: int, mustBeFresh: bool,
                           content: Option<seq<Byte>>, val: int, begin: bool, end: bool)

  function KindOf(typ: nat): Option<Kind> {
    if typ == TLV_INTEREST then Some(Interest)
    else if typ == TLV_DATA then Some(Data)
    else if typ == TLV_FRAGMENT then Some(Fragment)
    else None
  }

  function NewPacket(kind: Kind): Packet {
    Packet(kind, None, None, 3, 0, MAX_NAME_COMP, false, None, 0, false, false)
  }

  /** The integer behind a one-byte marker at the start of a field of `len` bytes. */
  function Behind(t: seq<Byte>, len: nat): nat
    requires len <= |t|
  {
    if len <= 1 then 0 else NonNegInt(t[1..len])
  }

  /** The name with the component of `len` bytes at the start of `v`. The marker is looked for even
      where the component is empty, and then found in whatever follows. */
  function WithComponent(n: Name, v: seq<Byte>, len: nat): Name
    requires len <= |v|
  {
    Name(n.comps + [v[..len]],
         if v != [] && v[0] == SEGMENT_MARKER then Some(Low32(Behind(v, len))) else n.chunknum)
  }

  /** Takes components off `t` until `left` bytes are used up; None where the program bails out
      or would read beyond the packet. Components beyond the limit are skipped. */
  function ParseName(t: seq<Byte>, left: int, n: Name): (r: Option<Name>)
    decreases left
  {
    if left <= 0 then Some(n)
    else if left > |t| then None
    else match Dehead(t[..left])
      case None => None
      case Some((typ, len, u)) =>
        var v := t[left - |u|..];
        if len > |v| then None
        else
          var m := if typ == TLV_COMPONENT && |n.comps| < MAX_NAME_COMP then WithComponent(n, v, len) else n;
          ParseName(v[len..], |u| - len, m)
  }

  function WithSelector(typ: nat, x: int, p: Packet): Packet {
    if typ == TLV_MIN_SUFFIX then p.(minsuffix := x)
    else if typ == TLV_MAX_SUFFIX then p.(maxsuffix := x)
    else if typ == TLV_MUST_BE_FRESH then p.(mustBeFresh := true)
    else p
  }

  function ParseSelectors(t: seq<Byte>, left: int, p: Packet): (r: Option<Packet>)
    decreases left
  {
    if left <= 0 then Some(p)
    else if left > |t| then None
    else match Dehead(t[..left])
      case None => None
      case Some((typ, len, u)) =>
        var v := t[left - |u|..];
        if len > |v| then None
        else
          ParseSelectors(v[len..], |u| - len, WithSelector(typ, Signed32(NonNegInt(v[..len])), p))
  }

  function ParseMetaInfo(t: seq<Byte>, left: int, p: Packet): (r: Option<Packet>)
    decreases left
  {
    if left <= 0 then Some(p)
    else if left > |t| then None
    else match Dehead(t[..left])
      case None => None
      case Some((typ, len, u)) =>
        var v := t[left - |u|..];
        if typ == TLV_FINAL_BLOCK_ID then
          match Dehead(u)
          case None => None
          case Some((typ2, len2, u2)) =>
            var v2 := t[left - |u2|..];
            if len2 > |v2| then None
            else
              var q := if typ2 == TLV_COMPONENT then p.(val := Signed32(Behind(v2, len2))) else p;
              ParseMetaInfo(v2[len2..], |u2| - len2, q)
        else if len > |v| then None
        else ParseMetaInfo(v[len..], |u| - len, p)
  }

  function ParseField(typ: nat, t: seq<Byte>, len: nat, p: Packet): Option<Packet>
    requires len <= |t|
  {
    if typ == TLV_NAME then
      if p.name.Some? then None
      else match ParseName(t, len, Name([], None))
        case None => None
        case Some(n) => Some(p.(name := Some(n), val := -1))
    else if typ == TLV_SELECTORS then ParseSelectors(t, len, p)
    else if typ == TLV_NONCE then Some(p.(nonce := Some(t[..len])))
    else if typ == TLV_SCOPE then Some(p.(scope := Signed32(NonNegInt(t[..len]))))
    else if typ == TLV_CONTENT || typ == TLV_FRAGMENT_PAYLOAD then Some(p.(content := Some(t[..len])))
    else if typ == TLV_META_INFO then ParseMetaInfo(t, len, p)
    else if typ == TLV_BEGIN_END_FIELDS then
      var x := Low32(NonNegInt(t[..len]));
      Some(p.(val := x % 0x4000, begin := p.begin || x / 0x4000 % 2 == 1, end := p.end || x / 0x8000 % 2 == 1))
    else Some(p)
  }

  /** Bytes left when no further field head can be read: the head may have been read in part. */
  function LeftOver(s: seq<Byte>): nat {
    match ReadVar(s)
    case None => |s|
    case Some((_, t)) => |t|
  }

  function ParseFields(s: seq<Byte>, p: Packet): (r: Option<Packet>)
    decreases |s|
  {
    match Dehead(s)
    case None => if LeftOver(s) > 0 then None else Some(p)
    case Some((typ, len, t)) =>
      if len > |t| then None
      else match ParseField(typ, t, len, p)
        case None => None
        case Some(q) => ParseFields(t[len..], q)
  }

  function ParsePacket(s: seq<Byte>): (r: Option<Packet>) {
    match Dehead(s)
    case None => None
    case Some((typ, len, t)) =>
      if len > |t| || KindOf(typ).None? then None
      else ParseFields(t, NewPacket(KindOf(typ).value))
  }

  method Bytes2Pkt(typ: nat, data: seq<Byte>) returns (pkt: Option<Packet>)
    ensures pkt == if KindOf(typ).None? then None else ParseFields(data, NewPacket(KindOf(typ).value))
  {
    hide ParseField;
    var kind := KindOf(typ);
    if kind.None? {
      return None;
    }
    var p, rest := NewPacket(kind.value), data;
    var head := Dehead(rest);
    while head.Some?
      invariant head == Dehead(rest)
      invariant ParseFields(data, NewPacket(kind.value)) == ParseFields(rest, p)
      decreases |rest|
    {
      var (t, len, u) := head.value;
      if len > |u| {
        return None;
      }
      var q := ParseField(t, u, len, p);
      if q.None? {
        return None;
      }
      p, rest := q.value, u[len..];
      head := Dehead(rest);
    }
    pkt := if LeftOver(rest) > 0 then None else Some(p);
  }
}
