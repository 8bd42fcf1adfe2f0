/** HMAC with SHA-256, as section 2 of RFC 2104 defines it, and the program's way to compute it. */
module Hmac {
  import opened Octets
  import opened Words
  import opened Sha256Standard
  import opened Sha256

  const IPAD: Octet := 0x36
  const OPAD: Octet := 0x5c

  function XorOctet(a: Octet, b: Octet): Octet { a ^ b }

  function Xor(s: seq<Octet>, pad: Octet): (r: seq<Octet>)
    ensures |r| == |s|
  {
    seq(|s|, i requires 0 <= i < |s| => XorOctet(s[i], pad))
  }

  /** A key of block length: longer keys are hashed first, then zeros are appended. */
  function BlockKey(key: seq<Octet>): (k: seq<Octet>)
    ensures |k| == BLOCK
  {
    var k := if |key| <= BLOCK then key else Sha256Standard.Sha256(key);
    k + Zeros(BLOCK - |k|)
  }

  function HmacSha256(key: seq<Octet>, text: seq<Octet>): (mac: seq<Octet>)
    ensures |mac| == DIGEST
  {
    var k := BlockKey(key);
    Sha256Standard.Sha256(Xor(k, OPAD) + Sha256Standard.Sha256(Xor(k, IPAD) + text))
  }

  predicate Hashable(n: nat) {
    8 * n < 0x1_0000_0000_0000_0000
  }

  /** The digest of a whole buffer's first bytes. */
  method Hash(little: bool, data: array<Octet>, len: nat) returns (md: array<Octet>)
    requires len <= data.Length && Hashable(len)
    ensures fresh(md) && md[..] == Sha256Standard.Sha256(data[..len])
  {
    hide Context.Valid, Sha256Standard.Sha256;
    var ctx := new Context(little);
    ctx.Init();
    ctx.Update(data, 0, len);
    assert ctx.msg == data[..len];
    md := ctx.Final();
  }

  method KeyVal(little: bool, key: array<Octet>, klen: nat) returns (keyval: array<Octet>)
    requires klen <= key.Length && Hashable(klen)
    ensures fresh(keyval) && keyval[..] == BlockKey(key[..klen])
  {
    hide Sha256Standard.Sha256;
    keyval := new Octet[BLOCK];
    var n := klen;
    if klen <= BLOCK {
      Copy(keyval, 0, key, 0, klen);
    } else {
      var md := Hash(little, key, klen);
      Copy(keyval, 0, md, 0, DIGEST);
      n := DIGEST;
    }
    assert keyval[..n] == if klen <= BLOCK then key[..klen] else Sha256Standard.Sha256(key[..klen]);
    Clear(keyval, n, BLOCK);
  }

  method PadKey(keyval: array<Octet>, kvlen: nat, pad: Octet) returns (buf: array<Octet>)
    requires kvlen <= keyval.Length
    ensures fresh(buf) && buf[..] == Xor(Clipped(keyval[..kvlen]) + Zeros(BLOCK - |Clipped(keyval[..kvlen])|), pad)
  {
    hide XorOctet;
    buf := new Octet[BLOCK];
    var n := if kvlen > BLOCK then BLOCK else kvlen;
    ghost var k := Clipped(keyval[..kvlen]) + Zeros(BLOCK - n);
    var i := 0;
    while i < n
      invariant 0 <= i <= n && forall j | 0 <= j < i :: buf[j] == XorOctet(k[j], pad)
    {
      buf[i] := XorOctet(keyval[i], pad);
      i := i + 1;
    }
    while i < BLOCK
      invariant n <= i <= BLOCK && forall j | 0 <= j < i :: buf[j] == XorOctet(k[j], pad)
    {
      buf[i] := XorOctet(0, pad);
      i := i + 1;
    }
  }

  /** A key value is cut off at the block length. */
  function Clipped(keyval: seq<Octet>): (k: seq<Octet>)
    ensures |k| <= BLOCK
  {
    if |keyval| > BLOCK then keyval[..BLOCK] else keyval
  }

  /** A context that has taken in the padded key. */
  method KeySetup(little: bool, keyval: array<Octet>, kvlen: nat, pad: Octet) returns (ctx: Context)
    requires kvlen <= keyval.Length
    ensures fresh(ctx) && fresh(ctx.state) && fresh(ctx.buffer) && ctx.Valid()
    ensures ctx.msg == Xor(BlockKey(Clipped(keyval[..kvlen])), pad)
  {
    hide Context.Valid, Xor, Clipped, Sha256Standard.Sha256;
    var buf := PadKey(keyval, kvlen, pad);
    ctx := new Context(little);
    ctx.Init();
    ctx.Update(buf, 0, BLOCK);
    assert ctx.msg == buf[..];
  }

  /** The hash of a padded key and a text. */
  method KeyedHash(little: bool, keyval: array<Octet>, kvlen: nat, pad: Octet, text: array<Octet>, len: nat)
    returns (md: array<Octet>)
    requires kvlen <= keyval.Length && len <= text.Length && Hashable(BLOCK + len)
    ensures fresh(md) && md[..] == Sha256Standard.Sha256(Xor(BlockKey(Clipped(keyval[..kvlen])), pad) + text[..len])
  {
    hide Context.Valid, Xor, Clipped, BlockKey, Sha256Standard.Sha256;
    var ctx := KeySetup(little, keyval, kvlen, pad);
    ctx.Update(text, 0, len);
    assert text[0..len] == text[..len];
    md := ctx.Final();
  }

  /** The signature of the data, cut off at the length asked for. */
  method Sign(little: bool, keyval: array<Octet>, kvlen: nat, data: array<Octet>, dlen: nat, mlen: nat)
    returns (md: seq<Octet>)
    requires kvlen <= keyval.Length && dlen <= data.Length && Hashable(BLOCK + dlen)
    ensures md == HmacSha256(Clipped(keyval[..kvlen]), data[..dlen])[..if mlen > DIGEST then DIGEST else mlen]
  {
    hide Xor, Clipped, BlockKey, Sha256Standard.Sha256;
    var tmp := KeyedHash(little, keyval, kvlen, IPAD, data, dlen);
    ghost var inner := tmp[..];
    assert tmp[..DIGEST] == inner;
    tmp := KeyedHash(little, keyval, kvlen, OPAD, tmp, DIGEST);
    assert tmp[..] == HmacSha256(Clipped(keyval[..kvlen]), data[..dlen]);
    assert |tmp[..]| == DIGEST;
    md := tmp[..if mlen > DIGEST then DIGEST else mlen];
  }

  /** The key value that is computed once stands for the key: signing with it is HMAC with the key. */
  lemma KeyValueStandsForKey(key: seq<Octet>, text: seq<Octet>)
    ensures HmacSha256(BlockKey(key), text) == HmacSha256(key, text)
  {
    assert BlockKey(BlockKey(key)) == BlockKey(key);
  }

  /** Section 2 of RFC 2104 in its own words, for a key of at most a block: the key, filled up with
      zeros, is combined with bytes 0x36 in front of the text, and with bytes 0x5c in front of the hash. */
  lemma ShortKey(key: seq<Octet>, text: seq<Octet>, inner: seq<Octet>, outer: seq<Octet>)
    requires |key| <= 64 == |inner| == |outer|
    requires forall i :: 0 <= i < 64 ==> inner[i] == (if i < |key| then key[i] else 0) ^ 0x36
    requires forall i :: 0 <= i < 64 ==> outer[i] == (if i < |key| then key[i] else 0) ^ 0x5c
    ensures HmacSha256(key, text) == Sha256Standard.Sha256(outer + Sha256Standard.Sha256(inner + text))
  {
    hide Sha256Standard.Sha256;
    assert Xor(BlockKey(key), IPAD) == inner && Xor(BlockKey(key), OPAD) == outer;
  }

  /** A longer key stands for its hash. */
  lemma LongKey(key: seq<Octet>, text: seq<Octet>)
    requires |key| > 64
    ensures HmacSha256(key, text) == HmacSha256(Sha256Standard.Sha256(key), text)
  {
  }
}
