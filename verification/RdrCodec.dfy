/** The data representation of local remote procedure calls: expression trees as nested
    type-length-value fields, written forwards and read back recursively. */
module RdrCodec {
  import opened Options
  import opened NdnTlv

  const FLATNAME := 0x0
  const NONNEGINT := 0x1
  const APPLICATION := 0x2
  const STR := 0x3
  const SEQUENCE := 0x4
  const LAMBDA := 0x5
  const BIN := 0x6
  const NONCE := 0x7
  const REQUEST := 0x81
  const REPLY := 0x82

  /** Lists are linked through the nodes. */
  datatype Tree =
    | Leaf(typ: nat, bytes: seq<Byte>)
    | Int(val: nat)
    | Node(typ: nat, first: Option<Tree>, rest: Trees)

  datatype Trees = Nil | Cons(head: Tree, tail: Trees)

  predicate IsLeaf(typ: nat) {
    typ in {FLATNAME, STR, BIN, NONCE}
  }

  /** Applications and abstractions have a node of their own in front of the list. */
  predicate HasFirst(typ: nat) {
    typ in {APPLICATION, LAMBDA}
  }

  predicate IsList(typ: nat) {
    typ in {SEQUENCE, REQUEST, REPLY}
  }

  predicate Wf(t: Tree) {
    match t
    case Leaf(typ, _) => IsLeaf(typ)
    case Int(val) => val <= 0xffff_ffff
    case Node(typ, first, rest) =>
      (if first.Some? then HasFirst(typ) && Wf(first.value) else IsList(typ)) && WfAll(rest)
  }

  predicate WfAll(ts: Trees) {
    match ts
    case Nil => true
    case Cons(t, rest) => Wf(t) && WfAll(rest)
  }

  // ----- lengths -----

  /** Lengths are signed integers of 32 bits. */
  predicate Small(n: nat) {
    n <= 0x7fff_ffff
  }

  function FieldLen(val: nat): nat {
    if val < 253 then 1 else if val <= 0xffff then 3 else if val <= 0xffff_ffff then 5 else 9
  }

  function TLVLen(typ: nat, len: nat): nat {
    FieldLen(typ) + FieldLen(len) + len
  }

  /** The bytes that a number needs, at least one. */
  function IntLen(val: nat): (n: nat)
    ensures n > 0
  {
    if val < 256 then 1 else 1 + IntLen(val / 256)
  }

  function FlatLen(t: Tree): nat {
    match t
    case Leaf(typ, bytes) => TLVLen(typ, |bytes|)
    case Int(val) => TLVLen(NONNEGINT, IntLen(val))
    case Node(typ, first, rest) => TLVLen(typ, (if first.Some? then FlatLen(first.value) else 0) + FlatLens(rest))
  }

  function FlatLens(ts: Trees): nat {
    match ts
    case Nil => 0
    case Cons(t, rest) => FlatLen(t) + FlatLens(rest)
  }

  /** The number of bytes is found by shifting; a string counts as a name would. */
  method GetFlatLen(t: Tree) returns (len: nat)
    ensures len == FlatLen(t)
    decreases t
  {
    match t {
      case Leaf(typ, bytes) =>
        return TLVLen(typ, |bytes|);
      case Int(n) =>
        var val: nat := n / 256;
        len := 1;
        while val != 0
          invariant if val == 0 then len == IntLen(n) else len + IntLen(val) == IntLen(n)
        {
          val := val / 256;
          len := len + 1;
        }
        return TLVLen(NONNEGINT, len);
      case Node(typ, first, rest) =>
        len := 0;
        if first.Some? {
          len := GetFlatLen(first.value);
        }
        var l := GetFlatLens(rest);
        len := TLVLen(typ, len + l);
    }
  }

  method GetFlatLens(ts: Trees) returns (len: nat)
    ensures len == FlatLens(ts)
    decreases ts
  {
    len := 0;
    var aux := ts;
    while aux.Cons?
      invariant len + FlatLens(aux) == FlatLens(ts) && (aux == ts || aux < ts)
      decreases aux
    {
      var l := GetFlatLen(aux.head);
      len := len + l;
      aux := aux.tail;
    }
  }

  // ----- writing -----

  function Encode(t: Tree): seq<Byte> {
    match t
    case Leaf(typ, bytes) => Field(typ, bytes)
    case Int(val) => Field(NONNEGINT, BigEndian(val, IntLen(val)))
    case Node(typ, first, rest) => Field(typ, (if first.Some? then Encode(first.value) else []) + EncodeAll(rest))
  }

  function EncodeAll(ts: Trees): seq<Byte> {
    match ts
    case Nil => []
    case Cons(t, rest) => Encode(t) + EncodeAll(rest)
  }

  lemma HeadLen(typ: nat, len: nat)
    ensures |Head(typ, len)| == FieldLen(typ) + FieldLen(len)
  {
  }

  /** The predicted length is the length of the encoding. */
  lemma {:induction false} EncodeLength(t: Tree)
    ensures |Encode(t)| == FlatLen(t)
  {
    hide Head;
    match t {
      case Leaf(typ, bytes) => HeadLen(typ, |bytes|);
      case Int(val) => HeadLen(NONNEGINT, IntLen(val));
      case Node(typ, first, rest) =>
        if first.Some? {
          EncodeLength(first.value);
        }
        EncodeLengths(rest);
        HeadLen(typ, (if first.Some? then FlatLen(first.value) else 0) + FlatLens(rest));
    }
  }

  lemma {:induction false} EncodeLengths(ts: Trees)
    ensures |EncodeAll(ts)| == FlatLens(ts)
  {
    match ts {
      case Nil =>
      case Cons(t, rest) =>
        EncodeLength(t);
        EncodeLengths(rest);
    }
  }

  // ----- reading -----

  /** A node and the number of bytes it takes. A child never reads beyond its parent's value. */
  function Decode(s: seq<Byte>): (r: Option<(Tree, nat)>)
    ensures r.Some? ==> 0 < r.value.1 <= |s|
    decreases |s|, 1
  {
    match Dehead(s)
    case None => None
    case Some((typ, len, t)) =>
      if len > |t| || !Small(len) then None
      else
        var body, used := t[..len], |s| - |t| + len;
        if typ == NONNEGINT then Some((Int(Low32(NonNegInt(body))), used))
        else if IsLeaf(typ) then Some((Leaf(typ, body), used))
        else if HasFirst(typ) then
          match Decode(body)
          case None => None
          case Some((f, n)) =>
            (match DecodeAll(body[n..])
             case None => None
             case Some(ts) => Some((Node(typ, Some(f), ts), used)))
        else if IsList(typ) then
          match DecodeAll(body)
          case None => None
          case Some(ts) => Some((Node(typ, None, ts), used))
        else None
  }

  function DecodeAll(s: seq<Byte>): Option<Trees>
    decreases |s|, 2
  {
    if s == [] then Some(Nil)
    else match Decode(s)
      case None => None
      case Some((t, n)) =>
        match DecodeAll(s[n..])
        case None => None
        case Some(ts) => Some(Cons(t, ts))
  }

  /** The reader: children are parsed from what is left of the value and linked at the end. */
  method GetType(s: seq<Byte>) returns (r: Option<(Tree, nat)>)
    ensures r == Decode(s)
    decreases |s|
  {
    var head := Dehead(s);
    if head.None? {
      return None;
    }
    var (typ, vallen, buf) := head.value;
    if vallen > |buf| || !Small(vallen) {
      return None;
    }
    var used := |s| - |buf| + vallen;
    var left := buf[..vallen];
    if typ == NONNEGINT {
      return Some((Int(Low32(NonNegInt(left))), used));
    }
    if IsLeaf(typ) {
      return Some((Leaf(typ, left), used));
    }
    var first := None;
    if HasFirst(typ) {
      var a := GetType(left);
      if a.None? {
        return None;
      }
      first := Some(a.value.0);
      left := left[a.value.1..];
    } else if !IsList(typ) {
      return None;
    }
    var list := GetList(left, |s|);
    r := if list.None? then None else Some((Node(typ, first, list.value), used));
  }

  method GetList(s: seq<Byte>, ghost bound: nat) returns (r: Option<Trees>)
    requires |s| < bound
    ensures r == DecodeAll(s)
    decreases bound, 0
  {
    hide Decode;
    var left, list := s, Nil;
    while left != []
      invariant |left| <= |s|
      invariant DecodeAll(s) == Linked(list, DecodeAll(left))
      decreases |left|
    {
      var a := GetType(left);
      if a.None? {
        LinkNone(list);
        return None;
      }
      var (t, n) := a.value;
      LinkAtEnd(list, t, DecodeAll(left[n..]));
      list := AtEnd(list, t);
      left := left[n..];
    }
    LinkNothing(list);
    r := Some(list);
  }

  /** A list with one more node at its end. */
  function AtEnd(ts: Trees, t: Tree): Trees {
    match ts
    case Nil => Cons(t, Nil)
    case Cons(h, rest) => Cons(h, AtEnd(rest, t))
  }

  /** A list in front of what is still to be read. */
  function Linked(ts: Trees, rest: Option<Trees>): Option<Trees> {
    match ts
    case Nil => rest
    case Cons(h, tail) =>
      match Linked(tail, rest)
      case None => None
      case Some(l) => Some(Cons(h, l))
  }

  lemma {:induction false} LinkAtEnd(ts: Trees, t: Tree, rest: Option<Trees>)
    ensures Linked(AtEnd(ts, t), rest) == Linked(ts, if rest.Some? then Some(Cons(t, rest.value)) else None)
  {
    match ts {
      case Nil =>
      case Cons(h, tail) => LinkAtEnd(tail, t, rest);
    }
  }

  lemma {:induction false} LinkNone(ts: Trees)
    ensures Linked(ts, None) == None
  {
    match ts {
      case Nil =>
      case Cons(h, tail) => LinkNone(tail);
    }
  }

  lemma {:induction false} LinkNothing(ts: Trees)
    ensures Linked(ts, Some(Nil)) == Some(ts)
  {
    match ts {
      case Nil =>
      case Cons(h, tail) => LinkNothing(tail);
    }
  }

  // ----- writing into a buffer -----

  /** `a` with `s` written over it at `at`. */
  function Overwritten(a: seq<Byte>, at: nat, s: seq<Byte>): seq<Byte>
    requires at + |s| <= |a|
  {
    a[..at] + s + a[at + |s|..]
  }

  lemma OverwriteTwice(a: seq<Byte>, at: nat, s: seq<Byte>, t: seq<Byte>)
    requires at + |s| + |t| <= |a|
    ensures Overwritten(Overwritten(a, at, s), at + |s|, t) == Overwritten(a, at, s + t)
  {
  }

  lemma OverwriteBefore(a: seq<Byte>, at: nat, b: Byte, s: seq<Byte>)
    requires at + 1 + |s| <= |a|
    ensures Overwritten(a, at + 1, s)[at := b] == Overwritten(a, at, [b] + s)
  {
  }

  /** The low `n` bytes of a number are filled in from behind. */
  method FillBytes(val: nat, n: nat, buf: array<Byte>, at: nat)
    requires at + n <= buf.Length
    modifies buf
    ensures buf[..] == Overwritten(old(buf[..]), at, BigEndian(val, n))
  {
    hide BigEndian, Overwritten;
    ghost var a := buf[..];
    ghost var low: seq<Byte> := [];
    var v, i := val, 0;
    OverwriteNothing(a, at + n);
    while i < n
      invariant 0 <= i <= n && |low| == i && BigEndian(val, n) == BigEndian(v, n - i) + low
      invariant buf[..] == Overwritten(a, at + (n - i), low)
    {
      BigEndianShift(v, n - i, low);
      i := i + 1;
      OverwriteBefore(a, at + (n - i), v % 256, low);
      low := [v % 256] + low;
      buf[at + (n - i)] := v % 256;
      v := v / 256;
    }
    NoBytes(v);
    assert [] + low == low;
  }

  lemma OverwriteNothing(a: seq<Byte>, at: nat)
    requires at <= |a|
    ensures Overwritten(a, at, []) == a
  {
  }

  lemma NoBytes(v: nat)
    ensures BigEndian(v, 0) == []
  {
  }

  /** A type or a length. */
  method FillTorL(val: nat, buf: array<Byte>, at: nat) returns (n: nat)
    requires at + |VarNum(val)| <= buf.Length
    modifies buf
    ensures n == |VarNum(val)| && buf[..] == Overwritten(old(buf[..]), at, VarNum(val))
  {
    hide BigEndian;
    ghost var a := buf[..];
    var len := VarSize(val);
    buf[at] := VarMark(val);
    assert buf[..] == Overwritten(a, at, [VarMark(val)]);
    FillBytes(val, len, buf, at + 1);
    OverwriteTwice(a, at, [VarMark(val)], BigEndian(val, len));
    n := len + 1;
  }

  method FillTandL(typ: nat, len: nat, buf: array<Byte>, at: nat) returns (n: nat)
    requires at + |Head(typ, len)| <= buf.Length
    modifies buf
    ensures n == |Head(typ, len)| && buf[..] == Overwritten(old(buf[..]), at, Head(typ, len))
  {
    hide VarNum;
    n := FillTorL(typ, buf, at);
    var m := FillTorL(len, buf, at + n);
    OverwriteTwice(old(buf[..]), at, VarNum(typ), VarNum(len));
    n := n + m;
  }

  /** A node, its first child and its list are filled in one behind the other. */
  method Fill(t: Tree, buf: array<Byte>, at: nat)
    requires Wf(t) && at + |Encode(t)| <= buf.Length
    modifies buf
    ensures buf[..] == Overwritten(old(buf[..]), at, Encode(t))
    decreases t
  {
    hide Head, Overwritten, BigEndian;
    ghost var a := buf[..];
    match t {
      case Leaf(typ, bytes) =>
        var len := FillTandL(typ, |bytes|, buf, at);
        FillBlob(bytes, buf, at + len);
        OverwriteTwice(a, at, Head(typ, |bytes|), bytes);
      case Int(val) =>
        var flatlen := GetFlatLen(t);
        IntHeader(val);
        var len := FillTandL(NONNEGINT, flatlen - 2, buf, at);
        FillBytes(val, flatlen - 2, buf, at + len);
        OverwriteTwice(a, at, Head(NONNEGINT, flatlen - 2), BigEndian(val, flatlen - 2));
      case Node(typ, first, rest) =>
        var len := 0;
        if first.Some? {
          len := GetFlatLen(first.value);
          EncodeLength(first.value);
        }
        var l := GetFlatLens(rest);
        EncodeLengths(rest);
        len := len + l;
        var p := FillTandL(typ, len, buf, at);
        p := at + p;
        if first.Some? {
          Fill(first.value, buf, p);
          var n := GetFlatLen(first.value);
          OverwriteTwice(a, at, Head(typ, len), Encode(first.value));
          p := p + n;
        }
        ghost var done := Head(typ, len) + if first.Some? then Encode(first.value) else [];
        assert first.None? ==> done == Head(typ, len);
        FillList(rest, buf, p);
        OverwriteTwice(a, at, done, EncodeAll(rest));
        assert done + EncodeAll(rest) == Encode(t);
    }
  }

  method FillList(ts: Trees, buf: array<Byte>, at: nat)
    requires WfAll(ts) && at + |EncodeAll(ts)| <= buf.Length
    modifies buf
    ensures buf[..] == Overwritten(old(buf[..]), at, EncodeAll(ts))
    decreases ts
  {
    hide Encode, Wf, Overwritten;
    ghost var a, done := buf[..], [];
    var aux, p := ts, at;
    OverwriteNothing(a, at);
    while aux.Cons?
      invariant (aux == ts || aux < ts) && WfAll(aux)
      invariant done + EncodeAll(aux) == EncodeAll(ts) && p == at + |done|
      invariant buf[..] == Overwritten(a, at, done)
      decreases aux
    {
      Fill(aux.head, buf, p);
      EncodeLength(aux.head);
      OverwriteTwice(a, at, done, Encode(aux.head));
      done := done + Encode(aux.head);
      var n := GetFlatLen(aux.head);
      p := p + n;
      aux := aux.tail;
    }
    assert done + [] == done;
  }

  method FillBlob(blob: seq<Byte>, buf: array<Byte>, at: nat)
    requires at + |blob| <= buf.Length
    modifies buf
    ensures buf[..] == Overwritten(old(buf[..]), at, blob)
  {
    forall i | 0 <= i < |blob| {
      buf[at + i] := blob[i];
    }
  }

  lemma IntHeader(val: nat)
    requires val <= 0xffff_ffff
    ensures IntLen(val) <= 4 && FlatLen(Int(val)) == 2 + IntLen(val) && |Head(NONNEGINT, IntLen(val))| == 2
  {
    assert IntLen(val / 256 / 256 / 256) == 1;
    assert IntLen(val / 256 / 256) <= 2;
    assert IntLen(val / 256) <= 3;
  }

  /** The length of the encoding, which is then in the buffer; or -1 if it has no room. */
  method Serialize(t: Tree, buf: array<Byte>, buflen: nat) returns (rc: int)
    requires Wf(t) && Small(|Encode(t)|) && buflen <= buf.Length
    modifies buf
    ensures rc == if |Encode(t)| <= buflen then |Encode(t)| else -1
    ensures buf[..] == if rc >= 0 then Encode(t) + old(buf[rc..]) else old(buf[..])
  {
    var len := GetFlatLen(t);
    EncodeLength(t);
    if len > buflen {
      return -1;
    }
    Fill(t, buf, 0);
    rc := len;
  }

  // ----- reading undoes writing -----

  lemma FieldDecodes(typ: nat, body: seq<Byte>, rest: seq<Byte>)
    requires typ < 253 && Small(|body|)
    ensures var s := Field(typ, body) + rest;
            Dehead(s) == Some((typ, |body|, body + rest)) && (body + rest)[..|body|] == body
            && |s| - |body + rest| + |body| == |Field(typ, body)|
  {
    hide Dehead, Head;
    assert Field(typ, body) + rest == Head(typ, |body|) + (body + rest);
    HeadReads(typ, |body|, body + rest);
  }

  lemma IntReads(val: nat)
    requires val <= 0xffff_ffff
    ensures Low32(NonNegInt(BigEndian(val, IntLen(val)))) == val
  {
    IntLenEnough(val);
    BigEndianReads(val, IntLen(val));
  }

  lemma {:induction false} IntLenEnough(val: nat)
    ensures val < Power256(IntLen(val))
  {
    if val >= 256 {
      IntLenEnough(val / 256);
    }
  }

  /** Whatever follows it, an encoded tree is read back, and exactly its bytes are used. */
  lemma {:induction false} DecodeEncode(t: Tree, rest: seq<Byte>)
    requires Wf(t) && Small(|Encode(t)|)
    ensures Decode(Encode(t) + rest) == Some((t, |Encode(t)|))
    decreases t, 1
  {
    hide Dehead, Head, BigEndian, NonNegInt, IntLen;
    match t {
      case Leaf(typ, bytes) =>
        FieldDecodes(typ, bytes, rest);
      case Int(val) =>
        FieldDecodes(NONNEGINT, BigEndian(val, IntLen(val)), rest);
        IntReads(val);
      case Node(typ, first, list) =>
        var body := (if first.Some? then Encode(first.value) else []) + EncodeAll(list);
        FieldDecodes(typ, body, rest);
        DecodeEncodeAll(list);
        if first.None? {
          assert body == EncodeAll(list);
        } else {
          DecodeEncode(first.value, EncodeAll(list));
          assert body[|Encode(first.value)|..] == EncodeAll(list);
        }
    }
  }

  lemma {:induction false} DecodeEncodeAll(ts: Trees)
    requires WfAll(ts) && Small(|EncodeAll(ts)|)
    ensures DecodeAll(EncodeAll(ts)) == Some(ts)
    decreases ts, 0
  {
    hide Encode, Decode;
    match ts {
      case Nil =>
      case Cons(t, rest) =>
        DecodeEncode(t, EncodeAll(rest));
        DecodeEncodeAll(rest);
        assert EncodeAll(ts)[|Encode(t)|..] == EncodeAll(rest);
    }
  }

  // ----- the types in numbers -----

  /** Names (0), strings (3), binary data (6) and nonces (7) are leaves, applications (2) and
      abstractions (5) have a node in front of their list, and sequences (4), requests (0x81) and
      replies (0x82) are lists. */
  lemma TreeTypes(typ: nat, bytes: seq<Byte>, first: Tree, rest: Trees)
    ensures Wf(Leaf(typ, bytes)) <==> typ == 0 || typ == 3 || typ == 6 || typ == 7
    ensures Wf(Node(typ, Some(first), rest)) <==> (typ == 2 || typ == 5) && Wf(first) && WfAll(rest)
    ensures Wf(Node(typ, None, rest)) <==> (typ == 4 || typ == 0x81 || typ == 0x82) && WfAll(rest)
  {
  }

  /** A number is of type 1 and has as many bytes as it needs, but one at least. */
  lemma NumberLayout(val: nat)
    ensures var n := IntLen(val);
            Encode(Int(val)) == Field(1, BigEndian(val, n)) && val < Power256(n) && (n > 1 ==> Power256(n - 1) <= val)
  {
    hide Field;
    IntLenExactly(val);
  }

  /** A number of any width is read, of which 32 bits are kept. */
  lemma NumberTaken(body: seq<Byte>, rest: seq<Byte>)
    requires Small(|body|)
    ensures Decode(Field(1, body) + rest) == Some((Int(NonNegInt(body) % 0x1_0000_0000), |Field(1, body)|))
  {
    hide Dehead, Field, NonNegInt;
    FieldDecodes(1, body, rest);
  }

  lemma {:induction false} IntLenExactly(val: nat)
    ensures val < Power256(IntLen(val)) && (IntLen(val) > 1 ==> Power256(IntLen(val) - 1) <= val)
  {
    if val < 256 {
      OnePower();
    } else {
      var q, n := val / 256, IntLen(val / 256);
      IntLenExactly(q);
      assert Power256(n + 1) == 256 * Power256(n);
      if n > 1 {
        assert Power256(n) == 256 * Power256(n - 1);
      } else {
        OnePower();
      }
    }
  }

  lemma OnePower()
    ensures Power256(1) == 256
  {
    assert Power256(1) == 256 * Power256(0);
  }

  /** A field of another type, or one longer than what is left, is not read. */
  lemma OtherTypeRefused(typ: nat, body: seq<Byte>, rest: seq<Byte>)
    requires 8 <= typ < 253 && typ != 0x81 && typ != 0x82 && Small(|body|)
    ensures Decode(Field(typ, body) + rest) == None
  {
    hide Dehead, Field;
    FieldDecodes(typ, body, rest);
  }

  lemma CutTreeRefused(typ: nat, len: nat, rest: seq<Byte>)
    requires typ < 253 && len <= 0xffff_ffff && |rest| < len
    ensures Decode(Head(typ, len) + rest) == None
  {
    hide Dehead, Head;
    HeadReads(typ, len, rest);
  }
}
