/** SHA-256 as FIPS 180-4 defines it: padding (section 5.1.1), functions (4.1.2), and hash
    computation with the full message schedule (6.2.2). */
module Sha256Standard {
  import opened Octets
  import opened Words

  const KEYS_0: seq<Word> := [
    0x428a2f98, 0x71374491, 0xb5c0fbcf, 0xe9b5dba5, 0x3956c25b, 0x59f111f1, 0x923f82a4, 0xab1c5ed5,
    0xd807aa98, 0x12835b01, 0x243185be, 0x550c7dc3, 0x72be5d74, 0x80deb1fe, 0x9bdc06a7, 0xc19bf174]

  const KEYS_16: seq<Word> := [
    0xe49b69c1, 0xefbe4786, 0x0fc19dc6, 0x240ca1cc, 0x2de92c6f, 0x4a7484aa, 0x5cb0a9dc, 0x76f988da,
    0x983e5152, 0xa831c66d, 0xb00327c8, 0xbf597fc7, 0xc6e00bf3, 0xd5a79147, 0x06ca6351, 0x14292967]

  const KEYS_32: seq<Word> := [
    0x27b70a85, 0x2e1b2138, 0x4d2c6dfc, 0x53380d13, 0x650a7354, 0x766a0abb, 0x81c2c92e, 0x92722c85,
    0xa2bfe8a1, 0xa81a664b, 0xc24b8b70, 0xc76c51a3, 0xd192e819, 0xd6990624, 0xf40e3585, 0x106aa070]

  const KEYS_48: seq<Word> := [
    0x19a4c116, 0x1e376c08, 0x2748774c, 0x34b0bcb5, 0x391c0cb3, 0x4ed8aa4a, 0x5b9cca4f, 0x682e6ff3,
    0x748f82ee, 0x78a5636f, 0x84c87814, 0x8cc70208, 0x90befffa, 0xa4506ceb, 0xbef9a3f7, 0xc67178f2]

  const K256: seq<Word> := KEYS_0 + (KEYS_16 + (KEYS_32 + KEYS_48))

  const INITIAL: seq<Word> := [
    0x6a09e667, 0xbb67ae85, 0x3c6ef372, 0xa54ff53a, 0x510e527f, 0x9b05688c, 0x1f83d9ab, 0x5be0cd19]

  const BLOCK: nat := 64
  const SHORT_BLOCK: nat := 56
  const DIGEST: nat := 32

  function RotR(x: Word, n: bv32): Word
    requires n <= 32
  {
    (x >> n) | (x << (32 - n))
  }

  /** Addition modulo 2^32. */
  function Add(x: Word, y: Word): Word { x + y }

  function Ch(x: Word, y: Word, z: Word): Word { (x & y) ^ (!x & z) }
  function Maj(x: Word, y: Word, z: Word): Word { (x & y) ^ (x & z) ^ (y & z) }

  /** Where `x` has a one, `Ch` is `y`, and elsewhere it is `z`. */
  lemma ChChooses(x: Word, y: Word, z: Word)
    ensures Ch(x, y, z) & x == y & x && Ch(x, y, z) & !x == z & !x
  {
  }

  /** Where `x` and `y` agree, `Maj` is what they agree on, and elsewhere it is `z`. */
  lemma MajVotes(x: Word, y: Word, z: Word)
    ensures Maj(x, y, z) & !(x ^ y) == x & !(x ^ y) && Maj(x, y, z) & (x ^ y) == z & (x ^ y)
  {
  }

  function Bit(x: Word, i: bv32): Word
    requires i < 32
  {
    (x >> i) & 1
  }

  /** Rotation moves each bit `n` places to the right, around the end. */
  lemma RotRMoves(x: Word, n: bv32, i: bv32)
    requires n < 32 && i < 32
    ensures Bit(RotR(x, n), i) == Bit(x, if i < 32 - n then i + n else i - (32 - n))
  {
    if i < 32 - n {
      LowMoves(x, n, i);
    } else {
      HighMoves(x, n, i);
    }
  }

  lemma LowMoves(x: Word, n: bv32, i: bv32)
    requires n < 32 && i < 32 - n
    ensures Bit(RotR(x, n), i) == Bit(x, i + n)
  {
    ShiftedBit(x, n, i);
  }

  lemma ShiftedBit(x: Word, n: bv32, i: bv32)
    requires n < 32 && i < 32 - n
    ensures (((x >> n) | (x << (32 - n))) >> i) & 1 == (x >> (i + n)) & 1
  {
  }

  lemma HighMoves(x: Word, n: bv32, i: bv32)
    requires 0 < n < 32 && 32 - n <= i < 32
    ensures Bit(RotR(x, n), i) == Bit(x, i - (32 - n))
  {
  }

  /** Rotation by an octet. */
  lemma RotROctet(a: Octet, b: Octet, c: Octet, d: Octet)
    ensures RotR(BigWord(a, b, c, d), 8) == BigWord(d, a, b, c)
  {
  }

  function BigSigma0(x: Word): Word { RotR(x, 2) ^ RotR(x, 13) ^ RotR(x, 22) }
  function BigSigma1(x: Word): Word { RotR(x, 6) ^ RotR(x, 11) ^ RotR(x, 25) }
  function Sigma0(x: Word): Word { RotR(x, 7) ^ RotR(x, 18) ^ (x >> 3) }
  function Sigma1(x: Word): Word { RotR(x, 17) ^ RotR(x, 19) ^ (x >> 10) }

  function K(t: nat): Word
    requires t < 64
  {
    K256[t]
  }

  /** The message schedule of a block. */
  function W(m: seq<Word>, t: nat): Word
    requires |m| == 16
  {
    if t < 16 then m[t]
    else Add(Add(Add(Sigma1(W(m, t - 2)), W(m, t - 7)), Sigma0(W(m, t - 15))), W(m, t - 16))
  }

  datatype Regs = Regs(a: Word, b: Word, c: Word, d: Word, e: Word, f: Word, g: Word, h: Word)

  function Round(r: Regs, k: Word, w: Word): Regs {
    var t1 := Add(Add(Add(Add(r.h, BigSigma1(r.e)), Ch(r.e, r.f, r.g)), k), w);
    var t2 := Add(BigSigma0(r.a), Maj(r.a, r.b, r.c));
    Regs(Add(t1, t2), r.a, r.b, r.c, Add(r.d, t1), r.e, r.f, r.g)
  }

  function Rounds(r: Regs, m: seq<Word>, t: nat): Regs
    requires |m| == 16 && t <= 64
  {
    if t == 0 then r else Round(Rounds(r, m, t - 1), K(t - 1), W(m, t - 1))
  }

  function RegsOf(h: seq<Word>): Regs
    requires |h| == 8
  {
    Regs(h[0], h[1], h[2], h[3], h[4], h[5], h[6], h[7])
  }

  function Compress(h: seq<Word>, m: seq<Word>): (r: seq<Word>)
    requires |h| == 8 && |m| == 16
    ensures |r| == 8
  {
    var r := Rounds(RegsOf(h), m, 64);
    [Add(h[0], r.a), Add(h[1], r.b), Add(h[2], r.c), Add(h[3], r.d),
     Add(h[4], r.e), Add(h[5], r.f), Add(h[6], r.g), Add(h[7], r.h)]
  }

  /** The sixteen words of a block. */
  function Parse(block: seq<Octet>): (m: seq<Word>)
    requires |block| == BLOCK
    ensures |m| == 16
  {
    seq(16, i requires 0 <= i < 16 => BigWord(block[4 * i], block[4 * i + 1], block[4 * i + 2], block[4 * i + 3]))
  }

  /** The compression function over all blocks, in order. */
  function Blocks(s: seq<Octet>): (h: seq<Word>)
    requires |s| % BLOCK == 0
    ensures |h| == 8
  {
    if s == [] then INITIAL else Compress(Blocks(s[..|s| - BLOCK]), Parse(s[|s| - BLOCK..]))
  }

  function Zeros(n: nat): (s: seq<Octet>)
    ensures |s| == n
  {
    seq(n, _ => 0)
  }

  function LowOctet(n: nat): Octet {
    (n % 256) as Octet
  }

  /** A 64-bit length in network order. */
  function Length64(n: nat): (s: seq<Octet>)
    ensures |s| == 8
  {
    [LowOctet(n / 0x100_0000_0000_0000), LowOctet(n / 0x1_0000_0000_0000), LowOctet(n / 0x100_0000_0000),
     LowOctet(n / 0x1_0000_0000), LowOctet(n / 0x100_0000), LowOctet(n / 0x1_0000), LowOctet(n / 0x100), LowOctet(n)]
  }

  /** The number of zero bytes that fill up the last block but for the length. */
  function FillLen(n: nat): (z: nat)
    ensures (n + 1 + z) % BLOCK == SHORT_BLOCK && z < BLOCK
  {
    if n % 64 <= 55 then 55 - n % 64 else 119 - n % 64
  }

  lemma PaddedLength(n: nat)
    ensures (n + 1 + FillLen(n) + 8) % BLOCK == 0
  {
  }

  function Pad(m: seq<Octet>): (s: seq<Octet>)
    ensures |s| % BLOCK == 0
  {
    PaddedLength(|m|);
    m + [0x80] + Zeros(FillLen(|m|)) + Length64(8 * |m|)
  }

  /** The number that octets in network order stand for. */
  function OctetsValue(s: seq<Octet>): nat {
    if s == [] then 0 else OctetsValue(s[..|s| - 1]) * 256 + s[|s| - 1] as nat
  }

  lemma LowOctetValue(n: nat)
    ensures LowOctet(n) as nat == n % 256
  {
    OctetIsByte(n % 256);
  }

  lemma OctetsValueStep(s: seq<Octet>, n: nat)
    ensures OctetsValue(s) == n / 256 ==> OctetsValue(s + [LowOctet(n)]) == n
  {
    hide LowOctet;
    LowOctetValue(n);
    assert (s + [LowOctet(n)])[..|s|] == s;
  }

  lemma LengthReads(n: nat)
    requires n < 0x1_0000_0000_0000_0000
    ensures OctetsValue(Length64(n)) == n
  {
    hide OctetsValue, LowOctet;
    var s := Length64(n);
    assert OctetsValue([]) == 0 by { NoOctetsValue(); }
    OctetsValueStep([], n / 0x100_0000_0000_0000);
    OctetsValueStep(s[..1], n / 0x1_0000_0000_0000);
    OctetsValueStep(s[..2], n / 0x100_0000_0000);
    OctetsValueStep(s[..3], n / 0x1_0000_0000);
    OctetsValueStep(s[..4], n / 0x100_0000);
    OctetsValueStep(s[..5], n / 0x1_0000);
    OctetsValueStep(s[..6], n / 0x100);
    OctetsValueStep(s[..7], n);
    assert s[..1] == [] + [s[0]] && s[..2] == s[..1] + [s[1]] && s[..3] == s[..2] + [s[2]] && s[..4] == s[..3] + [s[3]];
    assert s[..5] == s[..4] + [s[4]] && s[..6] == s[..5] + [s[5]] && s[..7] == s[..6] + [s[6]] && s == s[..7] + [s[7]];
  }

  lemma NoOctetsValue()
    ensures OctetsValue([]) == 0
  {
  }

  /** The padded message is the shortest sequence of whole blocks that consists of the message, a one
      bit, zero bits, and the length of the message in bits. */
  lemma PadExact(m: seq<Octet>)
    requires 8 * |m| < 0x1_0000_0000_0000_0000
    ensures var p := Pad(m);
            && |p| % BLOCK == 0 && |p| - BLOCK < |m| + 9 <= |p|
            && m <= p && p[|m|] == 0x80 && (forall i :: |m| < i < |p| - 8 ==> p[i] == 0)
            && OctetsValue(p[|p| - 8..]) == 8 * |m|
  {
    hide Length64, OctetsValue;
    LengthReads(8 * |m|);
    assert Pad(m)[|Pad(m)| - 8..] == Length64(8 * |m|);
  }

  /** No two messages have the same padding. */
  lemma PadInjective(m: seq<Octet>, n: seq<Octet>)
    requires 8 * |m| < 0x1_0000_0000_0000_0000 && 8 * |n| < 0x1_0000_0000_0000_0000
    requires Pad(m) == Pad(n)
    ensures m == n
  {
    hide Pad, OctetsValue;
    PadExact(m);
    PadExact(n);
    assert m == Pad(m)[..|m|] && n == Pad(n)[..|n|];
  }

  function OctetsOf(h: seq<Word>): (s: seq<Octet>)
    ensures |s| == 4 * |h|
  {
    if h == [] then [] else BigOctets(h[0]) + OctetsOf(h[1..])
  }

  function Sha256(m: seq<Octet>): (digest: seq<Octet>)
    ensures |digest| == DIGEST
  {
    OctetsOf(Blocks(Pad(m)))
  }
}
