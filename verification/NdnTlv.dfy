/** Type-length-value coding of NDN packets: written backwards from the end of a
    buffer, read forwards. */
module NdnTlv {
  import opened Options

  type Byte = b: int | 0 <= b < 256

  // ----- numbers -----

  /** The low `n` bytes of `v`, most significant first. */
  function BigEndian(v: nat, n: nat): (s: seq<Byte>)
    ensures |s| == n
    decreases n
  {
    if n == 0 then [] else BigEndian(v / 256, n - 1) + [v % 256]
  }

  function NonNegInt(s: seq<Byte>): nat {
    if s == [] then 0 else NonNegInt(s[..|s| - 1]) * 256 + s[|s| - 1]
  }

  /** As an `unsigned int` and as an `int` of 32 bits. */
  function Low32(n: int): nat {
    n % 0x1_0000_0000
  }

  function Signed32(n: nat): int {
    if Low32(n) < 0x8000_0000 then Low32(n) else Low32(n) - 0x1_0000_0000
  }

  function Power256(n: nat): (p: nat)
    ensures p > 0
  {
    if n == 0 then 1 else 256 * Power256(n - 1)
  }

  lemma {:induction false} BigEndianReads(v: nat, n: nat)
    requires v < Power256(n)
    ensures NonNegInt(BigEndian(v, n)) == v
    decreases n
  {
    if n > 0 {
      assert v / 256 < Power256(n - 1);
      BigEndianReads(v / 256, n - 1);
      assert BigEndian(v, n)[..n - 1] == BigEndian(v / 256, n - 1);
    }
  }

  // ----- variable-length numbers -----

  function VarSize(v: nat): (n: nat) {
    if v < 253 then 0 else if v <= 0xffff then 2 else if v <= 0xffff_ffff then 4 else 8
  }

  function VarMark(v: nat): Byte {
    if v < 253 then v else if v <= 0xffff then 253 else if v <= 0xffff_ffff then 254 else 255
  }

  function VarNum(v: nat): (s: seq<Byte>)
    ensures |s| == 1 + VarSize(v)
  {
    [VarMark(v)] + BigEndian(v, VarSize(v))
  }

  /** Type and length of a field. */
  function Head(typ: nat, len: nat): seq<Byte> {
    VarNum(typ) + VarNum(len)
  }

  function Field(typ: nat, value: seq<Byte>): seq<Byte> {
    Head(typ, |value|) + value
  }

  /** A number taken off the front; lengths in eight bytes are not implemented. */
  function ReadVar(s: seq<Byte>): (r: Option<(nat, seq<Byte>)>)
    ensures r.Some? ==> |r.value.1| < |s|
  {
    if s == [] then None
    else if s[0] < 253 then Some((s[0], s[1..]))
    else if s[0] == 253 && |s| >= 3 then Some((NonNegInt(s[1..3]), s[3..]))
    else if s[0] == 254 && |s| >= 5 then Some((NonNegInt(s[1..5]), s[5..]))
    else None
  }

  function Dehead(s: seq<Byte>): (r: Option<(nat, nat, seq<Byte>)>)
    ensures r.Some? ==> |r.value.2| < |s|
  {
    match ReadVar(s)
    case None => None
    case Some((typ, t)) =>
      match ReadVar(t)
      case None => None
      case Some((len, u)) => Some((typ, len, u))
  }

  lemma Power256Values()
    ensures Power256(1) == 0x100 && Power256(2) == 0x1_0000 && Power256(4) == 0x1_0000_0000
  {
    assert Power256(2) == 256 * Power256(1);
    assert Power256(3) == 256 * Power256(2);
  }

  /** A number is read back exactly if it fits the implemented widths. */
  lemma VarNumReads(v: nat, rest: seq<Byte>)
    ensures ReadVar(VarNum(v) + rest) == if v <= 0xffff_ffff then Some((v, rest)) else None
  {
    hide NonNegInt, BigEndian, Power256;
    var n, s := VarSize(v), VarNum(v) + rest;
    Power256Values();
    if v <= 0xffff_ffff {
      if n > 0 {
        BigEndianReads(v, n);
      }
      assert s[1..n + 1] == BigEndian(v, n) && s[n + 1..] == rest;
    }
  }

  lemma HeadReads(typ: nat, len: nat, rest: seq<Byte>)
    requires typ <= 0xffff_ffff && len <= 0xffff_ffff
    ensures Dehead(Head(typ, len) + rest) == Some((typ, len, rest))
  {
    hide ReadVar, VarNum;
    VarNumReads(typ, VarNum(len) + rest);
    VarNumReads(len, rest);
    assert Head(typ, len) + rest == VarNum(typ) + (VarNum(len) + rest);
  }

  // ----- writing backwards -----

  /** A buffer that is filled from its end; `out` is what stands behind the offset. */
  class Writer {
    const buf: array<Byte>
    var offset: nat
    ghost var out: seq<Byte>

    ghost predicate Valid()
      reads this, buf
      ensures Valid() ==> offset + |out| == buf.Length
    {
      offset + |out| == buf.Length && buf[offset..] == out
    }

    constructor (size: nat)
      ensures Valid() && fresh(buf) && buf.Length == size && out == []
    {
      buf := new Byte[size];
      offset := size;
      out := [];
    }

    method PrependByte(b: Byte) returns (ok: bool)
      requires Valid()
      modifies this, buf
      ensures Valid()
      ensures ok <==> 1 <= old(offset)
      ensures out == if ok then [b] + old(out) else old(out)
    {
      ok := 1 <= offset;
      if ok {
        offset := offset - 1;
        buf[offset] := b;
        out := [b] + out;
      }
    }

    method PrependTLval(val: nat) returns (ok: bool)
      requires Valid()
      modifies this, buf
      ensures Valid()
      ensures ok <==> |VarNum(val)| <= old(offset)
      ensures out == if ok then VarNum(val) + old(out) else old(out)
    {
      hide Valid;
      var len := VarSize(val);
      if offset < len + 1 {
        return false;
      }
      var v := val;
      var i := 0;
      while i < len
        invariant 0 <= i <= len && Valid() && offset + i == old(offset)
        invariant BigEndian(val, len) + old(out) == BigEndian(v, len - i) + out
      {
        BigEndianShift(v, len - i, out);
        ok := PrependByte(v % 256);
        v := v / 256;
        i := i + 1;
      }
      ok := PrependByte(VarMark(val));
      assert VarNum(val) + old(out) == [VarMark(val)] + (BigEndian(val, len) + old(out));
    }

    method PrependTL(typ: nat, len: nat) returns (ok: bool)
      requires Valid()
      modifies this, buf
      ensures Valid()
      ensures ok <==> |Head(typ, len)| <= old(offset)
      ensures ok ==> out == Head(typ, len) + old(out)
      ensures !ok && old(offset) <= VarSize(len) ==> out == old(out)
    {
      hide Valid;
      ok := PrependTLval(len);
      if ok {
        ok := PrependTLval(typ);
      }
    }

    method PrependBlob(typ: nat, blob: seq<Byte>) returns (ok: bool)
      requires Valid()
      modifies this, buf
      ensures Valid()
      ensures ok <==> |Field(typ, blob)| <= old(offset)
      ensures ok ==> out == Field(typ, blob) + old(out)
    {
      hide Valid;
      if offset < |blob| {
        return false;
      }
      PrependBytes(blob);
      ok := PrependTL(typ, |blob|);
    }

    /** A block of bytes for which there is room. */
    method PrependBytes(blob: seq<Byte>)
      requires Valid() && |blob| <= offset
      modifies this, buf
      ensures Valid() && out == blob + old(out)
    {
      hide Valid;
      var i := |blob|;
      while i > 0
        invariant 0 <= i <= |blob| && Valid() && offset == old(offset) - (|blob| - i)
        invariant out == blob[i..] + old(out)
      {
        i := i - 1;
        assert blob[i..] == [blob[i]] + blob[i + 1..];
        assert blob[i..] + old(out) == [blob[i]] + (blob[i + 1..] + old(out));
        var ok := PrependByte(blob[i]);
      }
    }
  }

  lemma BigEndianShift(v: nat, n: nat, tail: seq<Byte>)
    requires n > 0
    ensures BigEndian(v, n) + tail == BigEndian(v / 256, n - 1) + ([v % 256] + tail)
  {
  }
}
