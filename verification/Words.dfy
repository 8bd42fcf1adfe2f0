/** Machine words of 32 bits and their bytes, on machines of either byte order. */
module Words {
  import opened Octets

  type Word = bv32

  function BigWord(a: Octet, b: Octet, c: Octet, d: Octet): Word {
    ((a as Word) << 24) | ((b as Word) << 16) | ((c as Word) << 8) | (d as Word)
  }

  function BigOctets(w: Word): (s: seq<Octet>)
    ensures |s| == 4
  {
    [((w >> 24) & 0xff) as Octet, ((w >> 16) & 0xff) as Octet, ((w >> 8) & 0xff) as Octet, (w & 0xff) as Octet]
  }

  function SwapHalves(w: Word): Word {
    (w >> 16) | (w << 16)
  }

  function SwapOctets(w: Word): Word {
    ((w & 0xff00_ff00) >> 8) | ((w & 0x00ff_00ff) << 8)
  }

  /** The byte reversal of a word. */
  function Reverse(w: Word): Word {
    SwapOctets(SwapHalves(w))
  }

  lemma HalvesSwapped(a: Octet, b: Octet, c: Octet, d: Octet)
    ensures SwapHalves(BigWord(d, c, b, a)) == BigWord(b, a, d, c)
  {
  }

  lemma OctetsSwapped(a: Octet, b: Octet, c: Octet, d: Octet)
    ensures SwapOctets(BigWord(b, a, d, c)) == BigWord(a, b, c, d)
  {
  }

  /** What the machine loads from four bytes, and stores into them. */
  function Load(little: bool, a: Octet, b: Octet, c: Octet, d: Octet): Word {
    if little then BigWord(d, c, b, a) else BigWord(a, b, c, d)
  }

  function Store(little: bool, w: Word): (s: seq<Octet>)
    ensures |s| == 4
  {
    var o := BigOctets(w);
    if little then [o[3], o[2], o[1], o[0]] else o
  }

  /** The conversion between network and host order. */
  function Swap(little: bool, w: Word): Word {
    if little then Reverse(w) else w
  }

  lemma LoadStored(little: bool, w: Word)
    ensures var s := Store(little, w); Load(little, s[0], s[1], s[2], s[3]) == w
  {
    hide BigWord, BigOctets;
    BigStored(w);
  }

  lemma BigStored(w: Word)
    ensures var o := BigOctets(w); BigWord(o[0], o[1], o[2], o[3]) == w
  {
  }

  /** On either machine, a swapped load reads in network order. */
  lemma SwappedLoad(little: bool, a: Octet, b: Octet, c: Octet, d: Octet)
    ensures Swap(little, Load(little, a, b, c, d)) == BigWord(a, b, c, d)
  {
    hide BigWord, SwapHalves, SwapOctets;
    HalvesSwapped(a, b, c, d);
    OctetsSwapped(a, b, c, d);
  }

  lemma SwappedStore(little: bool, w: Word)
    ensures Store(little, Swap(little, w)) == BigOctets(w)
  {
    if little {
      hide BigWord, BigOctets, SwapHalves, SwapOctets;
      var o, r := BigOctets(w), BigOctets(Reverse(w));
      BigStored(w);
      HalvesSwapped(o[3], o[2], o[1], o[0]);
      OctetsSwapped(o[3], o[2], o[1], o[0]);
      assert Reverse(w) == BigWord(o[3], o[2], o[1], o[0]);
      StoredBig(o[3], o[2], o[1], o[0]);
    }
  }

  lemma StoredBig(a: Octet, b: Octet, c: Octet, d: Octet)
    ensures BigOctets(BigWord(a, b, c, d)) == [a, b, c, d]
  {
  }
}
