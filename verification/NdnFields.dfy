/** NDN packets field by field: the type numbers of the wire format, and what a parsed packet takes
    from each field. */
module NdnFields {
  import opened Options
  import opened NdnTlv
  import opened NdnPacket
  import opened NdnRoundTrip

  // ----- the wire format in numbers -----

  /** Numbers of types and lengths: one byte, or a marker with two or four bytes. */
  lemma NumberBytes(v: nat)
    ensures v < 253 ==> VarNum(v) == [v]
    ensures 253 <= v < 0x1_0000 ==> VarNum(v) == [253, v / 256, v % 256]
    ensures 0x1_0000 <= v < 0x1_0000_0000 ==>
              VarNum(v) == [254, v / 0x100_0000, v / 0x1_0000 % 256, v / 256 % 256, v % 256]
  {
    FourBytes(v);
  }

  lemma FourBytes(v: nat)
    ensures BigEndian(v, 0) == [] && BigEndian(v, 2) == [v / 256 % 256, v % 256]
    ensures BigEndian(v, 4) == [v / 0x100_0000 % 256, v / 0x1_0000 % 256, v / 256 % 256, v % 256]
  {
    assert BigEndian(v, 1) == [v % 256];
    TwoMore(v, 0);
    TwoMore(v, 2);
    assert v / 256 / 256 == v / 0x1_0000 && v / 0x1_0000 / 256 == v / 0x100_0000;
    assert BigEndian(v / 0x1_0000, 2) == [v / 0x100_0000 % 256, v / 0x1_0000 % 256] by { TwoMore(v / 0x1_0000, 0); }
  }

  lemma TwoMore(v: nat, n: nat)
    ensures BigEndian(v, n + 2) == BigEndian(v / 256 / 256, n) + [v / 256 % 256, v % 256]
  {
    assert BigEndian(v, n + 2) == BigEndian(v / 256, n + 1) + [v % 256];
    assert BigEndian(v / 256, n + 1) == BigEndian(v / 256 / 256, n) + [v / 256 % 256];
  }

  /** The fields of the components of a name, of type 8. */
  function ComponentFields(comps: seq<seq<Byte>>): seq<Byte> {
    if comps == [] then [] else Field(8, comps[0]) + ComponentFields(comps[1..])
  }

  lemma {:induction false} ComponentLayout(comps: seq<seq<Byte>>, i: nat)
    requires i <= |comps|
    ensures Components(comps, i) == ComponentFields(comps[i..])
    decreases |comps| - i
  {
    hide Field;
    if i < |comps| {
      ComponentLayout(comps, i + 1);
      ComponentsStep(comps, i);
      assert comps[i..][1..] == comps[i + 1..];
    } else {
      NoComponents(comps, []);
    }
  }

  /** A name of type 7, a nonce of type 10 if there is one, a life time of 4000 ms of type 12, and a
      scope of type 11 if there is one, in an Interest of type 5. */
  lemma InterestLayout(comps: seq<seq<Byte>>, scope: int, nonce: Option<seq<Byte>>)
    requires scope <= 2
    ensures InterestBytes(Name(comps, None), scope, nonce)
         == Field(5, Field(7, ComponentFields(comps)) + ((if nonce.Some? then Field(10, nonce.value) else []) +
                     (Field(12, [4000 / 256, 4000 % 256]) + (if scope >= 0 then Field(11, [scope]) else []))))
  {
    hide Field, Components, IntBytes;
    ComponentLayout(comps, 0);
    assert comps[0..] == comps;
    assert scope >= 0 ==> IntBytes(scope) == [scope] by { SmallInteger(scope); }
  }

  lemma SmallInteger(v: int)
    requires v < 256
    ensures v >= 0 ==> IntBytes(v) == [v]
  {
    if v >= 0 {
      assert ByteCount(v) <= 1;
      assert BigEndian(v, 1) == BigEndian(v / 256, 0) + [v % 256];
    }
  }

  /** A name, meta information of type 20, the content of type 21, and a signature without a key, in
      a Data of type 6. */
  lemma DataLayout(comps: seq<seq<Byte>>, payload: seq<Byte>)
    ensures DataBytes(Name(comps, None), payload, None)
         == Field(6, Field(7, ComponentFields(comps)) + (Field(20, []) + (Field(21, payload) +
                     (Field(22, Field(27, [0]) + Field(28, [])) + Field(23, [])))))
  {
    hide Field, Components;
    ComponentLayout(comps, 0);
    assert comps[0..] == comps;
    EmptyField(28);
    EmptyField(23);
  }

  lemma EmptyField(typ: nat)
    ensures Field(typ, []) == Head(typ, 0)
  {
    hide Head;
  }

  /** The final block id is a component of type 8 in a field of type 26, behind a zero byte. */
  lemma FinalBlockLayout(id: nat)
    ensures MetaInfo(Some(id)) == Field(26, Field(8, [0] + IntBytes(id)))
  {
    hide Field, IntBytes;
  }

  // ----- fields that are passed over -----

  /** A field of any other type changes nothing. */
  lemma OtherFieldStep(typ: nat, value: seq<Byte>, rest: seq<Byte>, p: Packet)
    requires typ <= 0xffff_ffff && Short(value)
    requires typ !in {7, 9, 10, 11, 20, 21, 82, 92}
    ensures ParseFields(Field(typ, value) + rest, p) == ParseFields(rest, p)
  {
    hide ParseFields, Field;
    FieldStep(typ, value, rest, p);
  }

  /** A packet with two names, or with a field longer than what is left, is refused. */
  lemma SecondNameRefused(value: seq<Byte>, rest: seq<Byte>, p: Packet)
    requires Short(value) && p.name.Some?
    ensures ParseFields(Field(7, value) + rest, p) == None
  {
    hide ParseFields, Field;
    FieldStep(7, value, rest, p);
  }

  lemma CutFieldRefused(typ: nat, len: nat, rest: seq<Byte>, p: Packet)
    requires typ <= 0xffff_ffff && len <= 0xffff_ffff && |rest| < len
    ensures ParseFields(Head(typ, len) + rest, p) == None
  {
    hide Dehead, Head;
    HeadReads(typ, len, rest);
  }

  /** Meta information other than the final block id changes nothing. */
  lemma OtherMetaInfo(typ: nat, value: seq<Byte>, rest: seq<Byte>, more: seq<Byte>, p: Packet)
    requires typ <= 0xffff_ffff && typ != 26 && Short(value)
    ensures ParseMetaInfo(Field(typ, value) + (rest + more), |Field(typ, value)| + |rest|, p)
         == ParseMetaInfo(rest + more, |rest|, p)
  {
    hide Dehead, Field;
    FieldReads(typ, value, rest, more);
    FieldNotEmpty(typ, value);
    assert (value + (rest + more))[|value|..] == rest + more;
  }

  /** Components beyond the sixty-fourth are not kept, nor are fields of other types in a name. */
  lemma PassedOver(typ: nat, value: seq<Byte>, rest: seq<Byte>, more: seq<Byte>, n: Name)
    requires typ <= 0xffff_ffff && Short(value) && (typ != 8 || |n.comps| >= 64)
    ensures ParseName(Field(typ, value) + (rest + more), |Field(typ, value)| + |rest|, n) == ParseName(rest + more, |rest|, n)
  {
    hide Dehead, Field;
    FieldReads(typ, value, rest, more);
    FieldNotEmpty(typ, value);
    assert (value + (rest + more))[|value|..] == rest + more;
  }

  lemma {:induction false} ExcessComponents(comps: seq<seq<Byte>>, more: seq<Byte>, n: Name)
    requires |n.comps| >= 64 && forall c :: c in comps ==> Short(c)
    ensures ParseName(ComponentFields(comps) + more, |ComponentFields(comps)|, n) == Some(n)
  {
    hide ParseName, Field;
    if comps == [] {
      NoComponents(comps, more);
    } else {
      var rest := ComponentFields(comps[1..]);
      PassedOver(8, comps[0], rest, more, n);
      assert ComponentFields(comps) + more == Field(8, comps[0]) + (rest + more);
      ExcessComponents(comps[1..], more, n);
    }
  }

  /** Packets of other types are refused. */
  lemma OtherPacketRefused(typ: nat, body: seq<Byte>)
    requires typ <= 0xffff_ffff && typ !in {5, 6, 100} && Short(body)
    ensures ParsePacket(Field(typ, body)) == None
  {
    hide Dehead, Head;
    HeadReads(typ, |body|, body);
  }

  /** What a packet is before its fields are read. */
  lemma Defaults(kind: Kind)
    ensures var p := NewPacket(kind);
            && p.kind == kind && p.name == None && p.nonce == None && p.content == None
            && p.scope == 3 && p.minsuffix == 0 && p.maxsuffix == 64 && !p.mustBeFresh && !p.begin && !p.end
  {
  }

  /** Written numbers are read as they are, up to the sign bit of an `int`. */
  lemma NumberRead(n: nat)
    requires n < 0x1_0000_0000
    ensures Signed32(NonNegInt(IntBytes(n))) == if n < 0x8000_0000 then n else n - 0x1_0000_0000
  {
    hide NonNegInt, IntBytes;
    IntBytesRead(n);
  }

  // ----- selectors -----

  /** A selector of an Interest; numbers are given by their bytes. */
  datatype Selector = MinSuffix(bytes: seq<Byte>) | MaxSuffix(bytes: seq<Byte>) | MustBeFresh | Unknown(typ: nat, value: seq<Byte>)

  predicate Writable(s: Selector) {
    match s
    case MinSuffix(b) => Short(b)
    case MaxSuffix(b) => Short(b)
    case MustBeFresh => true
    case Unknown(t, v) => t <= 0xffff_ffff && t !in {13, 14, 18} && Short(v)
  }

  function SelectorBytes(s: Selector): seq<Byte> {
    match s
    case MinSuffix(b) => Field(13, b)
    case MaxSuffix(b) => Field(14, b)
    case MustBeFresh => Field(18, [])
    case Unknown(t, v) => Field(t, v)
  }

  function AllSelectors(list: seq<Selector>): seq<Byte> {
    if list == [] then [] else SelectorBytes(list[0]) + AllSelectors(list[1..])
  }

  /** What one selector says. */
  predicate Says(s: Selector, p: Packet, q: Packet) {
    match s
    case MinSuffix(b) => q == p.(minsuffix := Signed32(NonNegInt(b)))
    case MaxSuffix(b) => q == p.(maxsuffix := Signed32(NonNegInt(b)))
    case MustBeFresh => q == p.(mustBeFresh := true)
    case Unknown(_, _) => q == p
  }

  lemma SelectorFieldStep(typ: nat, value: seq<Byte>, rest: seq<Byte>, more: seq<Byte>, p: Packet)
    requires typ <= 0xffff_ffff && Short(value)
    ensures ParseSelectors(Field(typ, value) + (rest + more), |Field(typ, value)| + |rest|, p)
         == ParseSelectors(rest + more, |rest|, WithSelector(typ, Signed32(NonNegInt(value)), p))
  {
    hide Dehead, Field, NonNegInt, Signed32, WithSelector;
    FieldReads(typ, value, rest, more);
    FieldNotEmpty(typ, value);
    var v := value + (rest + more);
    assert v[|value|..] == rest + more && v[..|value|] == value;
  }

  lemma SelectorStep(s: Selector, rest: seq<Byte>, more: seq<Byte>, p: Packet) returns (q: Packet)
    requires Writable(s)
    ensures Says(s, p, q)
    ensures ParseSelectors(SelectorBytes(s) + (rest + more), |SelectorBytes(s)| + |rest|, p) == ParseSelectors(rest + more, |rest|, q)
  {
    hide Field, NonNegInt, Signed32, ParseSelectors;
    var typ := match s case MinSuffix(_) => 13 case MaxSuffix(_) => 14 case MustBeFresh => 18 case Unknown(t, _) => t;
    var value := match s case MinSuffix(b) => b case MaxSuffix(b) => b case MustBeFresh => [] case Unknown(_, v) => v;
    SelectorFieldStep(typ, value, rest, more, p);
    q := WithSelector(typ, Signed32(NonNegInt(value)), p);
  }

  predicate OneOfEach(list: seq<Selector>) {
    forall i, j | 0 <= i < j < |list| ::
      !(list[i].MinSuffix? && list[j].MinSuffix?) && !(list[i].MaxSuffix? && list[j].MaxSuffix?)
  }

  /** The packet `q` is `p` with exactly what the selectors say. */
  ghost predicate Selected(list: seq<Selector>, p: Packet, q: Packet) {
    && (forall b :: MinSuffix(b) in list ==> q.minsuffix == Signed32(NonNegInt(b)))
    && ((forall b :: MinSuffix(b) !in list) ==> q.minsuffix == p.minsuffix)
    && (forall b :: MaxSuffix(b) in list ==> q.maxsuffix == Signed32(NonNegInt(b)))
    && ((forall b :: MaxSuffix(b) !in list) ==> q.maxsuffix == p.maxsuffix)
    && (q.mustBeFresh <==> p.mustBeFresh || MustBeFresh in list)
    && q == p.(minsuffix := q.minsuffix, maxsuffix := q.maxsuffix, mustBeFresh := q.mustBeFresh)
  }

  /** Selectors in any order are read as what they say. */
  lemma {:induction false} SelectorsRead(list: seq<Selector>, more: seq<Byte>, p: Packet) returns (q: Packet)
    requires OneOfEach(list) && forall s :: s in list ==> Writable(s)
    ensures ParseSelectors(AllSelectors(list) + more, |AllSelectors(list)|, p) == Some(q)
    ensures Selected(list, p, q)
  {
    hide ParseSelectors, NonNegInt, Signed32, SelectorBytes;
    if list == [] {
      NoSelectors(more, p);
      q := p;
    } else {
      var s, rest := list[0], list[1..];
      assert s in list;
      var p1 := SelectorStep(s, AllSelectors(rest), more, p);
      assert AllSelectors(list) + more == SelectorBytes(s) + (AllSelectors(rest) + more);
      q := SelectorsRead(rest, more, p1);
      FirstSelects(list, p, p1, q);
    }
  }

  lemma NoSelectors(more: seq<Byte>, p: Packet)
    ensures ParseSelectors([] + more, 0, p) == Some(p)
  {
  }

  lemma FirstSelects(list: seq<Selector>, p: Packet, p1: Packet, q: Packet)
    requires list != [] && OneOfEach(list) && Says(list[0], p, p1) && Selected(list[1..], p1, q)
    ensures Selected(list, p, q)
  {
    hide NonNegInt, Signed32;
    var s, rest := list[0], list[1..];
    assert forall x :: x in list <==> x == s || x in rest;
    forall j | 0 <= j < |rest|
      ensures !(s.MinSuffix? && rest[j].MinSuffix?) && !(s.MaxSuffix? && rest[j].MaxSuffix?)
    {
      assert list[j + 1] == rest[j];
    }
  }

  /** An Interest with a name and selectors is read with exactly the values of its selectors; what is
      not selected stays as it was (`Defaults`). */
  lemma SelectorsInInterest(name: Name, list: seq<Selector>) returns (q: Packet)
    requires Nameable(name) && OneOfEach(list) && (forall s :: s in list ==> Writable(s))
    requires Short(NameBytes(name) + Field(9, AllSelectors(list)))
    ensures ParsePacket(Field(5, NameBytes(name) + Field(9, AllSelectors(list)))) == Some(q)
    ensures Selected(list, NewPacket(Interest).(name := Some(AsRead(name)), val := -1), q)
    ensures (forall s :: s in list ==> !s.MinSuffix?) ==> q.minsuffix == 0
    ensures (forall s :: s in list ==> !s.MaxSuffix?) ==> q.maxsuffix == 64
    ensures MustBeFresh !in list ==> !q.mustBeFresh
  {
    hide Head, ParseFields, ParseSelectors, AllSelectors, AsRead, Selected, Writable, ParsePacket, AllComps, Components;
    var value := AllSelectors(list);
    var tail := Field(9, value);
    var p := NewPacket(Interest).(name := Some(AsRead(name)), val := -1);
    PacketReads(Interest, 5, NameBytes(name) + tail);
    FieldNotEmpty(9, value);
    NameStep(name, tail, NewPacket(Interest));
    q := SelectorsRead(list, [], p);
    FieldStep(9, value, [], p);
    assert value + [] == value && tail + [] == tail;
    NothingLeft(q);
    SelectedDefaults(list, p, q);
  }

  lemma SelectedDefaults(list: seq<Selector>, p: Packet, q: Packet)
    requires Selected(list, p, q) && p.minsuffix == 0 && p.maxsuffix == 64 && !p.mustBeFresh
    ensures (forall s :: s in list ==> !s.MinSuffix?) ==> q.minsuffix == 0
    ensures (forall s :: s in list ==> !s.MaxSuffix?) ==> q.maxsuffix == 64
    ensures MustBeFresh !in list ==> !q.mustBeFresh
  {
  }
}
