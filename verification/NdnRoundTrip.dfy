/** Parsing an NDN packet undoes composing it. */
module NdnRoundTrip {
  import opened Options
  import opened NdnTlv
  import opened NdnPacket

  predicate Short(s: seq<Byte>) {
    |s| <= 0xffff_ffff
  }

  /** The chunk number that the parser finds: that of the last component with a marker. */
  function ChunkOf(comps: seq<seq<Byte>>): Option<nat> {
    if comps == [] then None
    else
      var last := comps[|comps| - 1];
      if last != [] && last[0] == SEGMENT_MARKER then Some(Low32(NonNegInt(last[1..])))
      else ChunkOf(comps[..|comps| - 1])
  }

  /** A field inside a longer text of which `rest` is still to be read and `more` is not. */
  lemma FieldReads(typ: nat, value: seq<Byte>, rest: seq<Byte>, more: seq<Byte>)
    requires typ <= 0xffff_ffff && Short(value)
    ensures var t, left := Field(typ, value) + (rest + more), |Field(typ, value)| + |rest|;
            Dehead(t[..left]) == Some((typ, |value|, value + rest))
            && t[left - |value + rest|..] == value + (rest + more)
  {
    hide Dehead, Head;
    var t, left := Field(typ, value) + (rest + more), |Field(typ, value)| + |rest|;
    assert t[..left] == Head(typ, |value|) + (value + rest);
    HeadReads(typ, |value|, value + rest);
  }

  lemma AddsComponent(c: seq<Byte>, tail: seq<Byte>, n: Name)
    requires n.chunknum == ChunkOf(n.comps)
    requires tail != [] ==> tail[0] != SEGMENT_MARKER
    ensures WithComponent(n, c + tail, |c|) == Name(n.comps + [c], ChunkOf(n.comps + [c]))
  {
    hide NonNegInt;
    var v, comps := c + tail, n.comps + [c];
    assert v[..|c|] == c;
    assert comps[|comps| - 1] == c && comps[..|comps| - 1] == n.comps;
    if c != [] {
      assert v[0] == c[0] && v[1..|c|] == c[1..];
      EmptyIsZero(c[1..]);
    }
  }

  lemma EmptyIsZero(s: seq<Byte>)
    ensures s == [] ==> NonNegInt(s) == 0
  {
  }

  lemma ParseNameStep(t: seq<Byte>, left: nat, n: Name, len: nat, u: seq<Byte>, v: seq<Byte>)
    requires 0 < left <= |t| && |n.comps| < MAX_NAME_COMP
    requires Dehead(t[..left]) == Some((TLV_COMPONENT, len, u))
    requires |u| <= left && v == t[left - |u|..] && len <= |v|
    ensures ParseName(t, left, n) == ParseName(v[len..], |u| - len, WithComponent(n, v, len))
  {
    hide Dehead, WithComponent;
  }

  lemma ParseOneComponent(c: seq<Byte>, rest: seq<Byte>, more: seq<Byte>, n: Name)
    requires Short(c) && |n.comps| < MAX_NAME_COMP && n.chunknum == ChunkOf(n.comps)
    requires rest + more != [] ==> (rest + more)[0] != SEGMENT_MARKER
    ensures var comps := n.comps + [c];
            ParseName(Field(TLV_COMPONENT, c) + (rest + more), |Field(TLV_COMPONENT, c)| + |rest|, n)
            == ParseName(rest + more, |rest|, Name(comps, ChunkOf(comps)))
  {
    hide Dehead, Field, WithComponent, ChunkOf, ParseName;
    var t, left := Field(TLV_COMPONENT, c) + (rest + more), |Field(TLV_COMPONENT, c)| + |rest|;
    var v := c + (rest + more);
    FieldReads(TLV_COMPONENT, c, rest, more);
    FieldNotEmpty(TLV_COMPONENT, c);
    ParseNameStep(t, left, n, |c|, c + rest, v);
    AddsComponent(c, rest + more, n);
    assert v[|c|..] == rest + more;
  }

  /** The coded components are read back, with the chunk number of the last marked one. */
  lemma {:induction false} ParseComponents(comps: seq<seq<Byte>>, i: nat, more: seq<Byte>)
    requires i <= |comps| <= MAX_NAME_COMP && (forall c :: c in comps ==> Short(c))
    requires more != [] ==> more[0] != SEGMENT_MARKER
    ensures ParseName(Components(comps, i) + more, |Components(comps, i)|, Name(comps[..i], ChunkOf(comps[..i])))
         == Some(Name(comps, ChunkOf(comps)))
    decreases |comps| - i
  {
    hide Field, ChunkOf, ParseName, Components;
    if i == |comps| {
      NoComponents(comps, more);
      assert comps[..i] == comps;
    } else {
      ComponentsStep(comps, i);
      ComponentsStart(comps, i + 1);
      var rest := Components(comps, i + 1);
      ParseOneComponent(comps[i], rest, more, Name(comps[..i], ChunkOf(comps[..i])));
      assert Components(comps, i) + more == Field(TLV_COMPONENT, comps[i]) + (rest + more);
      assert comps[..i + 1] == comps[..i] + [comps[i]];
      ParseComponents(comps, i + 1, more);
    }
  }

  lemma NoComponents(comps: seq<seq<Byte>>, more: seq<Byte>)
    ensures Components(comps, |comps|) == [] && forall n :: ParseName([] + more, 0, n) == Some(n)
  {
  }

  lemma ComponentsStart(comps: seq<seq<Byte>>, i: nat)
    requires i <= |comps|
    ensures Components(comps, i) == [] || Components(comps, i)[0] == TLV_COMPONENT
  {
    if i < |comps| {
      FieldNotEmpty(TLV_COMPONENT, comps[i]);
    }
  }

  lemma FieldNotEmpty(typ: nat, value: seq<Byte>)
    ensures |Field(typ, value)| > |value| + 1 && (typ < 253 ==> Field(typ, value)[0] == typ)
  {
  }

  /** What an optional or absent field leaves to be read never starts with the marker byte. */
  predicate Starts(s: seq<Byte>) {
    s != [] ==> s[0] != SEGMENT_MARKER
  }

  predicate Nameable(n: Name) {
    && WritableName(n) && |AllComps(n)| <= MAX_NAME_COMP
    && forall c :: c in AllComps(n) ==> Short(c)
  }

  /** The name as it is read: a chunk number shows up as a component, too. */
  function AsRead(n: Name): Name {
    Name(AllComps(n), ChunkOf(AllComps(n)))
  }

  lemma FieldStep(typ: nat, value: seq<Byte>, rest: seq<Byte>, p: Packet)
    requires typ <= 0xffff_ffff && Short(value)
    ensures ParseFields(Field(typ, value) + rest, p)
         == match ParseField(typ, value + rest, |value|, p)
            case None => None
            case Some(q) => ParseFields(rest, q)
  {
    hide Dehead, Head, ParseField;
    HeadReads(typ, |value|, value + rest);
    assert Field(typ, value) + rest == Head(typ, |value|) + (value + rest);
    assert (value + rest)[|value|..] == rest;
  }

  lemma NameStep(n: Name, rest: seq<Byte>, p: Packet)
    requires Nameable(n) && Short(Components(AllComps(n), 0)) && Starts(rest) && p.name.None?
    ensures ParseFields(NameBytes(n) + rest, p) == ParseFields(rest, p.(name := Some(AsRead(n)), val := -1))
  {
    hide Components, Field, ParseFields, ChunkOf, ParseName;
    var comps := AllComps(n);
    assert comps[..0] == [];
    assert ChunkOf([]) == None by { NoChunk(); }
    ParseComponents(comps, 0, rest);
    FieldStep(TLV_NAME, Components(comps, 0), rest, p);
  }

  lemma NoChunk()
    ensures ChunkOf([]) == None
  {
  }

  lemma ValueStep(typ: nat, value: seq<Byte>, rest: seq<Byte>, p: Packet)
    requires typ <= 0xffff_ffff && Short(value)
    ensures typ == TLV_NONCE ==>
              ParseFields(Field(typ, value) + rest, p) == ParseFields(rest, p.(nonce := Some(value)))
    ensures typ == TLV_CONTENT ==>
              ParseFields(Field(typ, value) + rest, p) == ParseFields(rest, p.(content := Some(value)))
    ensures typ == TLV_SCOPE ==>
              ParseFields(Field(typ, value) + rest, p) == ParseFields(rest, p.(scope := Signed32(NonNegInt(value))))
    ensures typ in {TLV_LIFETIME, TLV_SIGNATURE_INFO, TLV_SIGNATURE_VALUE} ==>
              ParseFields(Field(typ, value) + rest, p) == ParseFields(rest, p)
  {
    hide ParseFields, Field;
    FieldStep(typ, value, rest, p);
    assert (value + rest)[..|value|] == value;
  }

  lemma OptionalStep(o: Option<seq<Byte>>, typ: nat, rest: seq<Byte>, p: Packet)
    requires (o.Some? ==> Short(o.value)) && Starts(rest)
    ensures Starts(Optional(o, typ) + rest) || typ == SEGMENT_MARKER || typ >= 253
    ensures typ == TLV_NONCE && p.nonce.None? ==>
              ParseFields(Optional(o, typ) + rest, p) == ParseFields(rest, p.(nonce := o))
    ensures typ == TLV_SCOPE ==>
              ParseFields(Optional(o, typ) + rest, p)
              == ParseFields(rest, if o.Some? then p.(scope := Signed32(NonNegInt(o.value))) else p)
  {
    hide ParseFields, Field, NonNegInt;
    match o {
      case None =>
        assert Optional(o, typ) + rest == rest;
        assert p.nonce.None? ==> p.(nonce := o) == p;
      case Some(v) =>
        FieldNotEmpty(typ, v);
        if typ == TLV_NONCE || typ == TLV_SCOPE {
          ValueStep(typ, v, rest, p);
        }
    }
  }

  lemma NothingLeft(p: Packet)
    ensures ParseFields([], p) == Some(p)
  {
  }

  lemma PacketReads(kind: Kind, typ: nat, body: seq<Byte>)
    requires typ <= 0xffff_ffff && Short(body) && KindOf(typ) == Some(kind)
    ensures ParsePacket(Field(typ, body)) == ParseFields(body, NewPacket(kind))
  {
    hide Dehead, Head, ParseFields;
    HeadReads(typ, |body|, body);
  }

  lemma InterestTailReads(scope: int, nonce: Option<seq<Byte>>, p: Packet)
    requires scope <= 2 && (nonce.Some? ==> Short(nonce.value)) && p.nonce.None?
    ensures Starts(InterestTail(scope, nonce))
    ensures ParseFields(InterestTail(scope, nonce), p)
         == Some(p.(nonce := nonce, scope := if scope >= 0 then scope else p.scope))
  {
    hide Field, ParseFields, IntBytes, NonNegInt;
    var tail2 := Optional(ScopeBytes(scope), TLV_SCOPE);
    var tail1 := Field(TLV_LIFETIME, DEFAULT_LIFETIME) + tail2;
    FieldNotEmpty(TLV_LIFETIME, DEFAULT_LIFETIME);
    var q := p.(nonce := nonce);
    OptionalStep(nonce, TLV_NONCE, tail1, p);
    ValueStep(TLV_LIFETIME, DEFAULT_LIFETIME, tail2, q);
    if scope >= 0 {
      IntBytesRead(scope);
    }
    assert tail2 + [] == tail2;
    SmallScope(scope);
    OptionalStep(ScopeBytes(scope), TLV_SCOPE, [], q);
    NothingLeft(p.(nonce := nonce, scope := if scope >= 0 then scope else p.scope));
  }

  lemma SmallScope(scope: int)
    requires scope <= 2
    ensures scope >= 0 ==> |IntBytes(scope)| == 1
  {
  }

  /** A parsed Interest has the components, nonce and scope it was composed from. */
  lemma InterestRoundTrip(name: Name, scope: int, nonce: Option<seq<Byte>>)
    requires Nameable(name) && scope <= 2 && Short(InterestBytes(name, scope, nonce))
    ensures ParsePacket(InterestBytes(name, scope, nonce))
         == Some(NewPacket(Interest).(name := Some(AsRead(name)), val := -1, nonce := nonce,
                                      scope := if scope >= 0 then scope else 3))
  {
    hide ParseFields, Components, ChunkOf, AllComps, IntBytes, Head, InterestTail, ParsePacket;
    var tail := InterestTail(scope, nonce);
    PacketReads(Interest, TLV_INTEREST, NameBytes(name) + tail);
    assert nonce.Some? ==> |nonce.value| <= |tail| by { TailHoldsNonce(scope, nonce); }
    var p := NewPacket(Interest).(name := Some(AsRead(name)), val := -1);
    InterestTailReads(scope, nonce, p);
    NameStep(name, tail, NewPacket(Interest));
  }

  lemma TailHoldsNonce(scope: int, nonce: Option<seq<Byte>>)
    ensures nonce.Some? ==> |nonce.value| <= |InterestTail(scope, nonce)|
  {
    hide Head;
  }

  lemma MarkedReads(id: nat, rest: seq<Byte>)
    requires id <= 0xffff_ffff
    ensures var m := Marked(id); Behind(m + rest, |m|) == id && NonNegInt(m[1..]) == id && m[0] == SEGMENT_MARKER
  {
    hide NonNegInt;
    IntBytesRead(id);
    var m := Marked(id);
    assert (m + rest)[1..|m|] == IntBytes(id) == m[1..];
  }

  lemma MetaInfoReads(finalBlockId: Option<nat>, rest: seq<Byte>, p: Packet)
    requires finalBlockId.Some? ==> finalBlockId.value <= 0xffff_ffff
    ensures Short(MetaInfo(finalBlockId))
    ensures ParseMetaInfo(MetaInfo(finalBlockId) + rest, |MetaInfo(finalBlockId)|, p)
         == Some(if finalBlockId.Some? then p.(val := Signed32(finalBlockId.value)) else p)
  {
    match finalBlockId {
      case None =>
      case Some(id) =>
        hide Dehead, Field, Head, Marked, NonNegInt, Behind;
        var m := Marked(id);
        MarkedSize(id);
        var inner := Field(TLV_COMPONENT, m);
        var t, left := Field(TLV_FINAL_BLOCK_ID, inner) + rest, |Field(TLV_FINAL_BLOCK_ID, inner)|;
        FieldNotEmpty(TLV_FINAL_BLOCK_ID, inner);
        FieldReads(TLV_FINAL_BLOCK_ID, inner, [], rest);
        assert [] + rest == rest && inner + [] == inner;
        FieldReads(TLV_COMPONENT, m, [], rest);
        assert inner[..|inner|] == inner;
        MarkedReads(id, rest);
        var v2 := m + rest;
        assert t[left - |m|..] == v2 by {
          assert t[left - |inner|..] == inner + rest;
          assert (inner + rest)[|inner| - |m|..] == v2;
        }
        FinalBlockStep(t, left, p, inner, m, v2);
    }
  }

  lemma MarkedSize(id: nat)
    ensures |Marked(id)| <= 5 && |Field(TLV_COMPONENT, Marked(id))| <= 8
  {
  }

  lemma FinalBlockStep(t: seq<Byte>, left: nat, p: Packet, u: seq<Byte>, u2: seq<Byte>, v2: seq<Byte>)
    requires 0 < left <= |t| && |u| <= left && |u2| <= left
    requires Dehead(t[..left]) == Some((TLV_FINAL_BLOCK_ID, |u|, u))
    requires Dehead(u) == Some((TLV_COMPONENT, |u2|, u2))
    requires v2 == t[left - |u2|..]
    ensures ParseMetaInfo(t, left, p) == Some(p.(val := Signed32(Behind(v2, |u2|))))
  {
    hide Dehead, Behind;
  }

  function DataTail(payload: seq<Byte>, finalBlockId: Option<nat>): seq<Byte> {
    Field(TLV_META_INFO, MetaInfo(finalBlockId)) + (Field(TLV_CONTENT, payload) +
    (Field(TLV_SIGNATURE_INFO, SIGNATURE_INFO) + Head(TLV_SIGNATURE_VALUE, 0)))
  }

  lemma DataTailReads(payload: seq<Byte>, finalBlockId: Option<nat>, p: Packet)
    requires finalBlockId.Some? ==> finalBlockId.value <= 0xffff_ffff
    requires Short(payload)
    ensures Starts(DataTail(payload, finalBlockId))
    ensures ParseFields(DataTail(payload, finalBlockId), p)
         == Some(p.(content := Some(payload), val := if finalBlockId.Some? then Signed32(finalBlockId.value) else p.val))
  {
    hide Field, ParseFields, MetaInfo, Head, ParseMetaInfo;
    var signature := Field(TLV_SIGNATURE_INFO, SIGNATURE_INFO) + Head(TLV_SIGNATURE_VALUE, 0);
    var tail := Field(TLV_CONTENT, payload) + signature;
    FieldNotEmpty(TLV_META_INFO, MetaInfo(finalBlockId));
    MetaInfoReads(finalBlockId, tail, p);
    FieldStep(TLV_META_INFO, MetaInfo(finalBlockId), tail, p);
    var q := p.(val := if finalBlockId.Some? then Signed32(finalBlockId.value) else p.val);
    ValueStep(TLV_CONTENT, payload, signature, q);
    var r := q.(content := Some(payload));
    SignatureReads(r);
  }

  lemma SignatureReads(p: Packet)
    ensures ParseFields(Field(TLV_SIGNATURE_INFO, SIGNATURE_INFO) + Head(TLV_SIGNATURE_VALUE, 0), p) == Some(p)
  {
    hide ParseFields;
    assert Short(SIGNATURE_INFO);
    ValueStep(TLV_SIGNATURE_INFO, SIGNATURE_INFO, Head(TLV_SIGNATURE_VALUE, 0), p);
    ValueStep(TLV_SIGNATURE_VALUE, [], [], p);
    assert Field(TLV_SIGNATURE_VALUE, []) + [] == Head(TLV_SIGNATURE_VALUE, 0);
    NothingLeft(p);
  }

  /** A parsed Data has the components, payload and final block id it was composed from; the id is
      read into a signed integer. */
  lemma DataRoundTrip(name: Name, payload: seq<Byte>, finalBlockId: Option<nat>)
    requires Nameable(name) && Short(DataBytes(name, payload, finalBlockId))
    requires finalBlockId.Some? ==> finalBlockId.value <= 0xffff_ffff
    ensures ParsePacket(DataBytes(name, payload, finalBlockId))
         == Some(NewPacket(Data).(name := Some(AsRead(name)), content := Some(payload),
                                  val := if finalBlockId.Some? then Signed32(finalBlockId.value) else -1))
  {
    hide ParseFields, Components, ChunkOf, AllComps, Head, DataTail, ParsePacket;
    var tail := DataTail(payload, finalBlockId);
    BodyOfData(name, payload, finalBlockId);
    PacketReads(Data, TLV_DATA, NameBytes(name) + tail);
    var p := NewPacket(Data).(name := Some(AsRead(name)), val := -1);
    DataTailReads(payload, finalBlockId, p);
    NameStep(name, tail, NewPacket(Data));
  }

  lemma BodyOfData(name: Name, payload: seq<Byte>, finalBlockId: Option<nat>)
    ensures DataBody(name, payload, finalBlockId) == NameBytes(name) + DataTail(payload, finalBlockId)
    ensures |payload| <= |DataTail(payload, finalBlockId)|
  {
    hide NameBytes, Head, MetaInfo;
  }

  /** The chunk number is read back if there is one; without one, exactly if no component looks
      like one. */
  lemma ChunkNumberRoundTrip(name: Name)
    requires WritableName(name)
    ensures AsRead(name).chunknum == name.chunknum
      <==> name.chunknum.Some? || forall c :: c in name.comps ==> c == [] || c[0] != SEGMENT_MARKER
  {
    hide ChunkOf;
    match name.chunknum {
      case Some(k) =>
        MarkedReads(k, []);
        var m := Marked(k);
        assert AllComps(name)[..|AllComps(name)| - 1] == name.comps;
        LastIsMarked(name.comps, m);
      case None =>
        ChunkOfNone(name.comps);
    }
  }

  lemma LastIsMarked(comps: seq<seq<Byte>>, m: seq<Byte>)
    requires m != [] && m[0] == SEGMENT_MARKER
    ensures ChunkOf(comps + [m]) == Some(Low32(NonNegInt(m[1..])))
  {
  }

  lemma {:induction false} ChunkOfNone(comps: seq<seq<Byte>>)
    ensures ChunkOf(comps) == None <==> forall c :: c in comps ==> c == [] || c[0] != SEGMENT_MARKER
  {
    if comps != [] {
      var k := |comps| - 1;
      ChunkOfNone(comps[..k]);
      assert comps == comps[..k] + [comps[k]];
    }
  }
}
