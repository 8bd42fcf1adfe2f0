/** Streaming SHA-256: the context is updated in place; its buffer holds the last bytes of the
    message and, during a transform, the circular message schedule. */
module Sha256 {
  import opened Octets
  import opened Words
  import opened Sha256Standard

  /** The 64 bytes as the machine's words. */
  function View(little: bool, s: seq<Octet>): (w: seq<Word>)
    requires |s| == BLOCK
    ensures |w| == 16
  {
    seq(16, i requires 0 <= i < 16 => Load(little, s[4 * i], s[4 * i + 1], s[4 * i + 2], s[4 * i + 3]))
  }

  /** Words of a block in network order are swapped loads. */
  lemma ParseIsSwapped(little: bool, s: seq<Octet>, j: nat)
    requires |s| == BLOCK && j < 16
    ensures Parse(s)[j] == Swap(little, View(little, s)[j])
  {
    SwappedLoad(little, s[4 * j], s[4 * j + 1], s[4 * j + 2], s[4 * j + 3]);
  }

  method StoreWord(little: bool, buf: array<Octet>, j: nat, w: Word)
    requires buf.Length == BLOCK && j < 16
    modifies buf
    ensures View(little, buf[..]) == old(View(little, buf[..]))[j := w]
  {
    hide Load, Store;
    var s := Store(little, w);
    LoadStored(little, w);
    buf[4 * j], buf[4 * j + 1], buf[4 * j + 2], buf[4 * j + 3] := s[0], s[1], s[2], s[3];
  }

  /** One round on the working variables. */
  method NextRegs(r: Regs, k: Word, w: Word) returns (s: Regs)
    ensures s == Round(r, k, w)
  {
    hide Add, BigSigma0, BigSigma1, Ch, Maj;
    var a, b, c, d, e, f, g, h := r.a, r.b, r.c, r.d, r.e, r.f, r.g, r.h;
    var t1 := Add(Add(Add(Add(h, BigSigma1(e)), Ch(e, f, g)), k), w);
    var t2 := Add(BigSigma0(a), Maj(a, b, c));
    h := g;
    g := f;
    f := e;
    e := Add(d, t1);
    d := c;
    c := b;
    b := a;
    a := Add(t1, t2);
    s := Regs(a, b, c, d, e, f, g, h);
  }

  lemma RoundsStep(r: Regs, m: seq<Word>, t: nat)
    requires |m| == 16 && t < 64
    ensures Rounds(r, m, t + 1) == Round(Rounds(r, m, t), K(t), W(m, t))
  {
    hide Round, K, W;
  }

  /** Where a word of the schedule is kept. */
  function Slot(k: nat): (n: nat)
    ensures n < 16
  {
    k % 16
  }

  lemma Slots(j: nat)
    requires j >= 16
    ensures Slot(j - 16) == Slot(j) && Slot(j - 2) == Slot(j + 14)
    ensures Slot(j - 7) == Slot(j + 9) && Slot(j - 15) == Slot(j + 1)
  {
  }

  lemma SlotsDiffer(j: nat, k: nat)
    requires k < j < k + 16
    ensures Slot(k) != Slot(j)
  {
  }

  /** The circular buffer holds the last sixteen words of the schedule. */
  predicate Circular(v: seq<Word>, m: seq<Word>, j: nat)
    requires |v| == 16 && |m| == 16 && j >= 16
  {
    forall k | j - 16 <= k < j :: v[Slot(k)] == W(m, k)
  }

  lemma CircularStep(v: seq<Word>, m: seq<Word>, j: nat, w: Word)
    requires |v| == 16 && |m| == 16 && j >= 16 && Circular(v, m, j)
    requires w == Add(v[Slot(j)], Add(Add(Sigma1(v[Slot(j + 14)]), v[Slot(j + 9)]), Sigma0(v[Slot(j + 1)])))
    ensures w == W(m, j) && Circular(v[Slot(j) := w], m, j + 1)
  {
    hide Sigma0, Sigma1, Add, Slot, W;
    Slots(j);
    assert v[Slot(j - 16)] == W(m, j - 16) && v[Slot(j - 2)] == W(m, j - 2);
    assert v[Slot(j - 7)] == W(m, j - 7) && v[Slot(j - 15)] == W(m, j - 15);
    AddReorder(W(m, j - 16), Sigma1(W(m, j - 2)), W(m, j - 7), Sigma0(W(m, j - 15)));
    ScheduleStep(m, j);
    forall k | j - 15 <= k < j + 1 ensures v[Slot(j) := w][Slot(k)] == W(m, k) {
      if k < j {
        SlotsDiffer(j, k);
      }
    }
  }

  lemma ScheduleStep(m: seq<Word>, j: nat)
    requires |m| == 16 && j >= 16
    ensures W(m, j) == Add(Add(Add(Sigma1(W(m, j - 2)), W(m, j - 7)), Sigma0(W(m, j - 15))), W(m, j - 16))
  {
    hide Sigma0, Sigma1, Add;
  }

  lemma AddReorder(a: Word, b: Word, c: Word, d: Word)
    ensures Add(a, Add(Add(b, c), d)) == Add(Add(Add(b, c), d), a)
  {
  }

  /** The bit count of the context has 64 bits. */
  function Bits(n: nat): nat {
    8 * n % 0x1_0000_0000_0000_0000
  }

  function Full(n: nat): (k: nat)
    ensures k <= n && k % BLOCK == 0
  {
    n - n % BLOCK
  }

  lemma BitsCount(n: nat, k: nat)
    ensures (Bits(n) + 8 * k) % 0x1_0000_0000_0000_0000 == Bits(n + k)
  {
    ModPlus(8 * n, 8 * k, 0x1_0000_0000_0000_0000);
    assert 8 * n + 8 * k == 8 * (n + k);
  }

  lemma BitsUsed(n: nat)
    ensures Bits(n) / 8 % BLOCK == n % BLOCK
  {
    var q := 8 * n / 0x1_0000_0000_0000_0000;
    assert Bits(n) == 8 * (n - 0x2000_0000_0000_0000 * q);
    var k := Bits(n) / 8;
    assert n == k + 64 * (0x80_0000_0000_0000 * q);
    ModUnique(n, 64, k / 64 + 0x80_0000_0000_0000 * q, k % 64);
  }

  lemma ModPlus(a: nat, b: nat, m: nat)
    requires m > 0
    ensures (a % m + b) % m == (a + b) % m
  {
    var q := a / m;
    assert a == m * q + a % m;
    var c, r := (a % m + b) / m, (a % m + b) % m;
    assert a % m + b == m * c + r;
    ModUnique(a + b, m, q + c, r);
  }

  lemma ModUnique(x: nat, m: nat, q: nat, r: nat)
    requires 0 <= r < m && x == m * q + r
    ensures x % m == r
  {
    var d := x / m - q;
    assert x == m * (x / m) + x % m;
    assert m * d == r - x % m;
    assert d == 0 by {
      assert d >= 1 ==> m * d >= m;
      assert d <= -1 ==> m * d + m <= 0;
    }
  }

  lemma SameBlock(n: nat, k: nat)
    requires n % BLOCK + k < BLOCK
    ensures Full(n + k) == Full(n) && (n + k) % BLOCK == n % BLOCK + k
  {
  }

  lemma NextBlock(n: nat, k: nat)
    requires n % BLOCK + k == BLOCK
    ensures Full(n + k) == n + k == Full(n) + BLOCK && (n + k) % BLOCK == 0
  {
  }

  lemma BlocksStep(s: seq<Octet>, block: seq<Octet>)
    requires |s| % BLOCK == 0 && |block| == BLOCK
    ensures |s + block| % BLOCK == 0 && Blocks(s + block) == Compress(Blocks(s), Parse(block))
  {
    hide Compress, Parse;
    assert (s + block)[..|s + block| - BLOCK] == s && (s + block)[|s + block| - BLOCK..] == block;
  }

  method Copy(dst: array<Octet>, at: nat, src: array<Octet>, from: nat, n: nat)
    requires dst != src && at + n <= dst.Length && from + n <= src.Length
    modifies dst
    ensures dst[..] == old(dst[..at]) + src[from..from + n] + old(dst[at + n..])
  {
    forall i | 0 <= i < n {
      dst[at + i] := src[from + i];
    }
  }

  class Context {
    const little: bool
    const state: array<Word>
    const buffer: array<Octet>
    var bitcount: nat
    /** The message so far. */
    ghost var msg: seq<Octet>

    predicate Shape() {
      state.Length == 8 && buffer.Length == BLOCK
    }

    constructor (littleEndian: bool)
      ensures Shape() && fresh(state) && fresh(buffer) && little == littleEndian
    {
      little := littleEndian;
      state := new Word[8];
      buffer := new Octet[64];
      bitcount := 0;
      msg := [];
    }

    function W256(): seq<Word>
      requires Shape()
      reads buffer
    {
      View(little, buffer[..])
    }

    /** The state is the hash of all full blocks, the buffer holds what comes after them. */
    ghost predicate Valid()
      reads this, state, buffer
      ensures Valid() ==> Shape()
    {
      && Shape() && bitcount == Bits(|msg|)
      && state[..] == Blocks(msg[..Full(|msg|)]) && buffer[..|msg| % BLOCK] == msg[Full(|msg|)..]
    }

    /** A word of the block goes into the buffer in host order. */
    method CopyWord(data: array<Octet>, start: nat, j: nat) returns (w: Word)
      requires Shape() && start + BLOCK <= data.Length && j < 16
      modifies buffer
      ensures w == Swap(little, old(View(little, data[start..start + BLOCK]))[j])
      ensures W256() == old(W256())[j := w]
    {
      hide Load, Swap;
      var i := start + 4 * j;
      ghost var d := data[start..start + BLOCK];
      assert d[4 * j] == data[i] && d[4 * j + 1] == data[i + 1];
      assert d[4 * j + 2] == data[i + 2] && d[4 * j + 3] == data[i + 3];
      w := Swap(little, Load(little, data[i], data[i + 1], data[i + 2], data[i + 3]));
      StoreWord(little, buffer, j, w);
    }

    /** The first sixteen rounds copy the block into the buffer, which may be the block itself. */
    method FirstRounds(data: array<Octet>, start: nat, r0: Regs, ghost m: seq<Word>) returns (r: Regs)
      requires Shape() && start + BLOCK <= data.Length && (data == buffer ==> start == 0)
      requires m == Parse(data[start..start + BLOCK])
      modifies buffer
      ensures W256() == m && r == Rounds(r0, m, 16)
    {
      hide Load, Swap, Round, Parse, View, Rounds, K, W;
      ghost var d := data[start..start + BLOCK];
      ghost var native := View(little, d);
      assert data == buffer ==> d == buffer[..];
      r := r0;
      assert r0 == Rounds(r0, m, 0) by { NoRounds(r0, m); }
      var j := 0;
      while j < 16
        invariant 0 <= j <= 16 && r == Rounds(r0, m, j)
        invariant W256()[..j] == m[..j]
        invariant data == buffer ==> W256()[j..] == native[j..]
        invariant data != buffer ==> data[start..start + BLOCK] == d
      {
        assert View(little, data[start..start + BLOCK])[j] == native[j] by {
          assert data == buffer ==> data[start..start + BLOCK] == buffer[..] && W256()[j..][0] == native[j..][0];
        }
        ParseIsSwapped(little, d, j);
        ghost var v := W256();
        var w := CopyWord(data, start, j);
        assert v[j := w][..j + 1] == v[..j] + [w] && v[j := w][j + 1..] == v[j..][1..];
        assert m[..j + 1] == m[..j] + [m[j]] && native[j + 1..] == native[j..][1..];
        FirstWord(m, j);
        RoundsStep(r0, m, j);
        r := NextRegs(r, K(j), w);
        j := j + 1;
      }
      assert m[..16] == m && W256()[..16] == W256();
    }

    /** The other rounds expand the schedule in the circular buffer. */
    method LaterRounds(r16: Regs, ghost r0: Regs, ghost m: seq<Word>) returns (r: Regs)
      requires Shape() && |m| == 16 && W256() == m && r16 == Rounds(r0, m, 16)
      modifies buffer
      ensures r == Rounds(r0, m, 64)
    {
      hide Load, Sigma0, Sigma1, Add, View, Round, Rounds, Slot, Circular, K, W;
      r := r16;
      StartsCircular(m);
      var j := 16;
      while j < 64
        invariant 16 <= j <= 64 && r == Rounds(r0, m, j) && Circular(W256(), m, j)
      {
        var s0 := LoadWord(Slot(j + 1));
        s0 := Sigma0(s0);
        var s1 := LoadWord(Slot(j + 14));
        s1 := Sigma1(s1);
        var w9 := LoadWord(Slot(j + 9));
        var w0 := LoadWord(Slot(j));
        var w := Add(w0, Add(Add(s1, w9), s0));
        CircularStep(W256(), m, j, w);
        StoreWord(little, buffer, Slot(j), w);
        RoundsStep(r0, m, j);
        r := NextRegs(r, K(j), w);
        j := j + 1;
      }
    }

    method LoadWord(j: nat) returns (w: Word)
      requires Shape() && j < 16
      ensures w == W256()[j]
    {
      hide Load;
      w := Load(little, buffer[4 * j], buffer[4 * j + 1], buffer[4 * j + 2], buffer[4 * j + 3]);
    }

    /** One block is taken from `data`, which may be the context's own buffer. */
    method Transform(data: array<Octet>, start: nat)
      requires Shape() && start + BLOCK <= data.Length && (data == buffer ==> start == 0)
      modifies state, buffer
      ensures state[..] == Compress(old(state[..]), Parse(old(data[start..start + BLOCK])))
    {
      hide Add, View, Rounds, Parse;
      ghost var m := Parse(data[start..start + BLOCK]);
      var r0 := Regs(state[0], state[1], state[2], state[3], state[4], state[5], state[6], state[7]);
      var r := FirstRounds(data, start, r0, m);
      r := LaterRounds(r, r0, m);
      AddRegs(r);
    }

    method AddRegs(r: Regs)
      requires Shape()
      modifies state
      ensures state[..] == old([Add(state[0], r.a), Add(state[1], r.b), Add(state[2], r.c), Add(state[3], r.d),
                                Add(state[4], r.e), Add(state[5], r.f), Add(state[6], r.g), Add(state[7], r.h)])
    {
      hide Add;
      var sum := [Add(state[0], r.a), Add(state[1], r.b), Add(state[2], r.c), Add(state[3], r.d),
                  Add(state[4], r.e), Add(state[5], r.f), Add(state[6], r.g), Add(state[7], r.h)];
      forall i | 0 <= i < 8 {
        state[i] := sum[i];
      }
    }

    method Init()
      requires Shape()
      modifies this, state, buffer
      ensures Valid() && msg == []
    {
      forall i | 0 <= i < 8 {
        state[i] := INITIAL[i];
      }
      forall i | 0 <= i < BLOCK {
        buffer[i] := 0;
      }
      bitcount := 0;
      msg := [];
      assert state[..] == INITIAL;
      assert msg[..0] == [];
    }

    /** Bytes that do not complete a block are kept in the buffer. */
    method Keep(data: array<Octet>, from: nat, n: nat, usedspace: nat)
      requires Valid() && data != buffer && from + n <= data.Length
      requires usedspace == |msg| % BLOCK && usedspace + n < BLOCK
      modifies this, state, buffer
      ensures Valid() && msg == old(msg) + data[from..from + n]
    {
      hide Blocks;
      BitsCount(|msg|, n);
      SameBlock(|msg|, n);
      ghost var full := Full(|msg|);
      ghost var all := msg + data[from..from + n];
      assert all[..full] == msg[..full] && all[full..] == msg[full..] + data[from..from + n];
      Copy(buffer, usedspace, data, from, n);
      bitcount := (bitcount + 8 * n) % 0x1_0000_0000_0000_0000;
      msg := all;
    }

    /** Bytes that complete the block in the buffer. */
    method TopUp(data: array<Octet>, from: nat, freespace: nat, usedspace: nat)
      requires Valid() && data != buffer && from + freespace <= data.Length
      requires usedspace == |msg| % BLOCK && usedspace + freespace == BLOCK
      modifies this, state, buffer
      ensures Valid() && msg == old(msg) + data[from..from + freespace] && |msg| % BLOCK == 0
    {
      hide Blocks, Compress, Parse;
      BitsCount(|msg|, freespace);
      NextBlock(|msg|, freespace);
      ghost var full := Full(|msg|);
      ghost var all := msg + data[from..from + freespace];
      ghost var block := msg[full..] + data[from..from + freespace];
      assert all == msg[..full] + block;
      BlocksStep(msg[..full], block);
      Copy(buffer, usedspace, data, from, freespace);
      assert buffer[0..BLOCK] == block;
      bitcount := (bitcount + 8 * freespace) % 0x1_0000_0000_0000_0000;
      Transform(buffer, 0);
      msg := all;
      assert all[..|all|] == all;
    }

    /** A whole block straight from the data. */
    method WholeBlock(data: array<Octet>, from: nat)
      requires Valid() && data != buffer && from + BLOCK <= data.Length && |msg| % BLOCK == 0
      modifies this, state, buffer
      ensures Valid() && msg == old(msg) + data[from..from + BLOCK] && |msg| % BLOCK == 0
    {
      hide Blocks, Compress, Parse;
      BitsCount(|msg|, BLOCK);
      ghost var block := data[from..from + BLOCK];
      BlocksStep(msg, block);
      assert msg[..|msg|] == msg;
      Transform(data, from);
      bitcount := (bitcount + 8 * BLOCK) % 0x1_0000_0000_0000_0000;
      msg := msg + block;
      assert msg[..|msg|] == msg;
    }

    /** With an empty buffer, whole blocks are taken and the rest is kept. */
    method Bulk(data: array<Octet>, from: nat, len: nat)
      requires Valid() && data != buffer && from + len <= data.Length && |msg| % BLOCK == 0
      modifies this, state, buffer
      ensures Valid() && msg == old(msg) + data[from..from + len]
    {
      hide Valid;
      var p, n := from, len;
      while n >= BLOCK
        invariant Valid() && |msg| % BLOCK == 0 && p + n == from + len && from <= p && 0 <= n
        invariant msg == old(msg) + data[from..p]
      {
        WholeBlock(data, p);
        Join(old(msg), data[..], from, p, p + BLOCK);
        p, n := p + BLOCK, n - BLOCK;
      }
      if n > 0 {
        Keep(data, p, n, 0);
        Join(old(msg), data[..], from, p, p + n);
      }
    }

    method Update(data: array<Octet>, from: nat, len: nat)
      requires Valid() && data != buffer && from + len <= data.Length
      modifies this, state, buffer
      ensures Valid() && msg == old(msg) + data[from..from + len]
    {
      hide Valid;
      if len == 0 {
        return;
      }
      BitsCountOf(this);
      var usedspace := bitcount / 8 % BLOCK;
      if usedspace > 0 {
        var freespace := BLOCK - usedspace;
        if len >= freespace {
          TopUp(data, from, freespace, usedspace);
          Bulk(data, from + freespace, len - freespace);
          Join(old(msg), data[..], from, from + freespace, from + len);
        } else {
          Keep(data, from, len, usedspace);
        }
      } else {
        Bulk(data, from, len);
      }
    }

    /** The padding of a message that leaves room for the length in its last block. */
    method PadShort(usedspace: nat)
      requires Valid() && usedspace == |msg| % BLOCK < SHORT_BLOCK
      modifies buffer
      ensures buffer[..] == ShortTail(msg)[..SHORT_BLOCK] + old(buffer[SHORT_BLOCK..])
      ensures state[..] == Blocks(msg[..Full(|msg|)])
    {
      hide Blocks;
      buffer[usedspace] := 0x80;
      Clear(buffer, usedspace + 1, SHORT_BLOCK);
      assert buffer[..SHORT_BLOCK] == ShortTail(msg)[..SHORT_BLOCK];
    }

    /** Otherwise the padding fills one more block. */
    method PadLong(usedspace: nat)
      requires Valid() && usedspace == |msg| % BLOCK >= SHORT_BLOCK
      modifies state, buffer
      ensures buffer.Length == BLOCK && buffer[..SHORT_BLOCK] == Zeros(SHORT_BLOCK)
      ensures state[..] == Compress(Blocks(msg[..Full(|msg|)]), Parse(LongTail(msg)))
    {
      hide Blocks, Compress, Parse;
      buffer[usedspace] := 0x80;
      Clear(buffer, usedspace + 1, BLOCK);
      assert buffer[0..BLOCK] == LongTail(msg);
      Transform(buffer, 0);
      Clear(buffer, 0, SHORT_BLOCK);
    }

    method Final() returns (digest: array<Octet>)
      requires Valid() && 8 * |msg| < 0x1_0000_0000_0000_0000
      modifies this, state, buffer
      ensures fresh(digest) && digest[..] == Sha256Standard.Sha256(old(msg))
      ensures bitcount == 0 && (forall i | 0 <= i < 8 :: state[i] == 0) && buffer[..] == Zeros(BLOCK)
    {
      hide Valid, Pad, Blocks, OctetsOf;
      ghost var m := msg;
      PadAll();
      Transform(buffer, 0);
      assert state[..] == Blocks(Pad(m));
      digest := Digest();
      Wipe();
    }

    method Wipe()
      requires Shape()
      modifies this, state, buffer
      ensures bitcount == 0 && (forall i | 0 <= i < 8 :: state[i] == 0) && buffer[..] == Zeros(BLOCK)
    {
      forall i | 0 <= i < 8 {
        state[i] := 0;
      }
      Clear(buffer, 0, BLOCK);
      bitcount := 0;
    }

    /** All padding, up to the last transform. */
    method PadAll()
      requires Valid() && 8 * |msg| < 0x1_0000_0000_0000_0000
      modifies state, buffer
      ensures Shape() && Compress(state[..], Parse(buffer[0..BLOCK])) == Blocks(Pad(msg))
    {
      hide Valid, Blocks, Compress, Parse, ShortTail, LongTail, Pad, Length64;
      BitsCountOf(this);
      var usedspace := bitcount / 8 % BLOCK;
      ghost var last;
      if usedspace < SHORT_BLOCK {
        PadShort(usedspace);
        ShortPadding(msg);
        last := ShortTail(msg);
      } else {
        PadLong(usedspace);
        LongPadding(msg);
        last := Zeros(SHORT_BLOCK) + Length64(8 * |msg|);
      }
      SetLength();
      assert buffer[0..BLOCK] == last;
    }

    /** The length goes into the last eight bytes in network order. */
    method SetLength()
      requires Shape()
      modifies buffer
      ensures buffer[..] == old(buffer[..SHORT_BLOCK]) + Length64(bitcount)
    {
      hide LowOctet;
      var l := Length64(bitcount);
      forall i | 0 <= i < 8 {
        buffer[SHORT_BLOCK + i] := l[i];
      }
    }

    method Digest() returns (digest: array<Octet>)
      requires Shape()
      ensures fresh(digest) && digest[..] == OctetsOf(state[..])
    {
      hide Store, Swap, BigOctets, OctetsOf;
      digest := new Octet[DIGEST];
      var j := 0;
      assert state[0..] == state[..];
      while j < 8
        invariant 0 <= j <= 8 && digest.Length == DIGEST
        invariant digest[..4 * j] + OctetsOf(state[j..]) == OctetsOf(state[..])
      {
        var o := Store(little, Swap(little, state[j]));
        SwappedStore(little, state[j]);
        ghost var done := digest[..4 * j];
        PutOctets(digest, 4 * j, o);
        assert digest[..4 * (j + 1)] == done + o;
        OctetsStep(state[j..]);
        assert state[j..][1..] == state[j + 1..];
        j := j + 1;
      }
      NoOctets();
      assert state[j..] == [] && digest[..32] == digest[..];
    }
  }

  method PutOctets(a: array<Octet>, at: nat, o: seq<Octet>)
    requires at + 4 <= a.Length && |o| == 4
    modifies a
    ensures a[..] == old(a[..at]) + o + old(a[at + 4..])
  {
    a[at], a[at + 1], a[at + 2], a[at + 3] := o[0], o[1], o[2], o[3];
  }

  lemma OctetsStep(h: seq<Word>)
    requires h != []
    ensures OctetsOf(h) == BigOctets(h[0]) + OctetsOf(h[1..])
  {
    hide BigOctets;
  }

  lemma NoOctets()
    ensures OctetsOf([]) == []
  {
  }

  method Clear(a: array<Octet>, from: nat, to: nat)
    requires from <= to <= a.Length
    modifies a
    ensures a[..] == old(a[..from]) + Zeros(to - from) + old(a[to..])
  {
    forall i | from <= i < to {
      a[i] := 0;
    }
  }

  /** The last block, if the length fits behind the rest of the message. */
  function ShortTail(m: seq<Octet>): (b: seq<Octet>)
    requires |m| % BLOCK < SHORT_BLOCK
    ensures |b| == BLOCK
  {
    m[Full(|m|)..] + [0x80] + Zeros(55 - |m| % BLOCK) + Length64(8 * |m|)
  }

  /** The last block but one, if it does not. */
  function LongTail(m: seq<Octet>): (b: seq<Octet>)
    requires |m| % BLOCK >= SHORT_BLOCK
    ensures |b| == BLOCK
  {
    m[Full(|m|)..] + [0x80] + Zeros(63 - |m| % BLOCK)
  }

  lemma ShortPadding(m: seq<Octet>)
    requires |m| % BLOCK < SHORT_BLOCK
    ensures Blocks(Pad(m)) == Compress(Blocks(m[..Full(|m|)]), Parse(ShortTail(m)))
    ensures ShortTail(m) == ShortTail(m)[..SHORT_BLOCK] + Length64(8 * |m|)
  {
    hide Blocks, Compress, Parse, Length64;
    BlocksStep(m[..Full(|m|)], ShortTail(m));
    assert Pad(m) == m[..Full(|m|)] + ShortTail(m);
  }

  lemma LongPadding(m: seq<Octet>)
    requires |m| % BLOCK >= SHORT_BLOCK
    ensures Blocks(Pad(m)) == Compress(Compress(Blocks(m[..Full(|m|)]), Parse(LongTail(m))),
                                       Parse(Zeros(SHORT_BLOCK) + Length64(8 * |m|)))
  {
    hide Blocks, Compress, Parse, Length64;
    var head, last := m[..Full(|m|)], Zeros(SHORT_BLOCK) + Length64(8 * |m|);
    BlocksStep(head, LongTail(m));
    BlocksStep(head + LongTail(m), last);
    assert Pad(m) == head + LongTail(m) + last;
  }

  lemma Join(a: seq<Octet>, d: seq<Octet>, i: nat, j: nat, k: nat)
    requires i <= j <= k <= |d|
    ensures a + d[i..j] + d[j..k] == a + d[i..k]
  {
    assert d[i..j] + d[j..k] == d[i..k];
  }

  lemma BitsCountOf(c: Context)
    requires c.Valid()
    ensures c.bitcount / 8 % BLOCK == |c.msg| % BLOCK
    ensures 8 * |c.msg| < 0x1_0000_0000_0000_0000 ==> c.bitcount == 8 * |c.msg|
  {
    hide Blocks;
    BitsUsed(|c.msg|);
  }

  lemma StartsCircular(m: seq<Word>)
    requires |m| == 16
    ensures Circular(m, m, 16)
  {
  }

  lemma NoRounds(r: Regs, m: seq<Word>)
    requires |m| == 16
    ensures Rounds(r, m, 0) == r
  {
  }

  lemma FirstWord(m: seq<Word>, j: nat)
    requires |m| == 16 && j < 16
    ensures W(m, j) == m[j]
  {
  }

  /** The bytes of all chunks. */
  ghost function Flat(chunks: seq<array<Octet>>): seq<Octet>
    reads chunks
  {
    if chunks == [] then [] else Flat(chunks[..|chunks| - 1]) + chunks[|chunks| - 1][..]
  }

  /** The digest does not depend on how a message is cut into chunks. */
  method HashChunks(little: bool, chunks: seq<array<Octet>>) returns (digest: array<Octet>)
    requires 8 * |Flat(chunks)| < 0x1_0000_0000_0000_0000
    ensures fresh(digest) && digest[..] == Sha256Standard.Sha256(Flat(chunks))
  {
    hide Context.Valid, Sha256Standard.Sha256;
    var ctx := new Context(little);
    ctx.Init();
    var i := 0;
    while i < |chunks|
      invariant 0 <= i <= |chunks| && ctx.Valid() && fresh(ctx) && fresh(ctx.state) && fresh(ctx.buffer)
      invariant ctx.msg == Flat(chunks[..i])
    {
      var chunk := chunks[i];
      ctx.Update(chunk, 0, chunk.Length);
      assert chunk[0..chunk.Length] == chunk[..];
      assert chunks[..i + 1][..i] == chunks[..i];
      i := i + 1;
    }
    assert chunks[..i] == chunks;
    digest := ctx.Final();
  }
}
