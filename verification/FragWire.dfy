/** Fragments and their wire format in the two packet suites that can be fragmented. */
module FragWire {
  import opened Options
  import opened NdnTlv
  import opened NdnPacket
  import opened NdnRoundTrip

  datatype Suite = Ccnx | Ndn | Other

  /** The suite of a packet, by its first bytes; without code-switch headers. */
  function SuiteOf(s: seq<Byte>): Suite {
    if |s| > 1 && s[0] == 1 && s[1] <= 3 then Ccnx
    else if s != [] && s[0] in {TLV_INTEREST, TLV_DATA, TLV_FRAGMENT} then Ndn
    else Other
  }

  /** NDN packets start with the type of an Interest, a Data or a fragment, CCNx packets with version 1
      and one of the types 0 to 3. */
  lemma SuiteExactly(s: seq<Byte>)
    ensures SuiteOf(s) == Ndn <==> s != [] && (s[0] == 5 || s[0] == 6 || s[0] == 100)
    ensures SuiteOf(s) == Ccnx <==> |s| >= 2 && s[0] == 1 && (s[1] == 0 || s[1] == 1 || s[1] == 2 || s[1] == 3)
  {
  }

  /** Every composed packet is of the suite NDN. */
  lemma ComposedSuite(name: Name, scope: int, nonce: Option<seq<Byte>>, payload: seq<Byte>, finalBlockId: Option<nat>)
    ensures SuiteOf(InterestBytes(name, scope, nonce)) == Ndn
    ensures SuiteOf(DataBytes(name, payload, finalBlockId)) == Ndn
  {
    hide Field, InterestBody, DataBody;
    FieldNotEmpty(TLV_INTEREST, InterestBody(name, scope, nonce));
    FieldNotEmpty(TLV_DATA, DataBody(name, payload, finalBlockId));
  }

  datatype Flag = Mid | First | Last | Single

  function FlagBits(f: Flag): (n: nat)
    ensures n < 4
  {
    match f case Mid => 0 case First => 1 case Last => 2 case Single => 3
  }

  function BitsFlag(begin: bool, end: bool): Flag {
    if begin then (if end then Single else First) else if end then Last else Mid
  }

  datatype Frag = Frag(flag: Flag, seqno: nat, payload: seq<Byte>)

  const SEQ_SPACE: nat := 0x4000

  // ----- sizes -----

  const CCN_HEADER: nat := 12

  function Min(a: nat, b: nat): nat {
    if a <= b then a else b
  }

  /** Bytes in front of `n` bytes of payload. */
  function NdnHeader(n: nat): nat {
    var h := |Head(TLV_FRAGMENT_PAYLOAD, n)| + |Head(TLV_BEGIN_END_FIELDS, 2)| + 2;
    h + |Head(TLV_FRAGMENT, h + n)|
  }

  /** How much of `remaining` bytes goes into one fragment. Room is an unsigned number, so that an
      MTU below the header size reads as unlimited room. */
  function PayloadLen(suite: Suite, mtu: nat, remaining: nat): (n: nat)
    ensures n <= remaining
  {
    match suite
    case Ccnx => Min(Low32(mtu - CCN_HEADER), remaining)
    case Ndn => Min(Low32(mtu - NdnHeader(Min(remaining, mtu))), remaining)
    case Other => 0
  }

  /** The smallest header of a fragment. */
  function HeaderLen(suite: Suite): nat {
    match suite case Ccnx => 12 case Ndn => 8 case Other => 0
  }

  function FlagOf(n: nat, offs: nat, total: nat): Flag {
    if n >= total then Single
    else if offs == 0 then First
    else if n >= total - offs then Last
    else Mid
  }

  // ----- wire formats -----

  function FlagsAndSeq(f: Frag): seq<Byte> {
    BigEndian(FlagBits(f.flag) * SEQ_SPACE + f.seqno % SEQ_SPACE, 2)
  }

  const CCN_VERSION: Byte := 1
  const CCN_FRAGMENT: Byte := 3
  const CCN_TL_FRAGMENT := 5

  function CcnHeader(f: Frag): (s: seq<Byte>)
    ensures |s| == CCN_HEADER
  {
    [CCN_VERSION, CCN_FRAGMENT] + BigEndian(CCN_HEADER + |f.payload|, 2) + [0] + FlagsAndSeq(f) + [8]
    + BigEndian(CCN_TL_FRAGMENT, 2) + BigEndian(|f.payload|, 2)
  }

  function CcnWire(f: Frag): seq<Byte> {
    CcnHeader(f) + f.payload
  }

  function NdnWire(f: Frag): seq<Byte> {
    Field(TLV_FRAGMENT, Field(TLV_BEGIN_END_FIELDS, FlagsAndSeq(f)) + Field(TLV_FRAGMENT_PAYLOAD, f.payload))
  }

  function NdnFragment(f: Frag): seq<Byte> {
    FlagsAndSeq(f) + Field(TLV_FRAGMENT_PAYLOAD, f.payload)
  }

  /** With an MTU below the smallest header, 8 bytes are left for the header whatever the payload,
      and the outer heads are missing for which these are too few. */
  function NdnHeadless(f: Frag): seq<Byte> {
    if |f.payload| < 247 then NdnWire(f)
    else if |f.payload| <= 0xffff then Head(TLV_BEGIN_END_FIELDS, 2) + NdnFragment(f)
    else NdnFragment(f)
  }

  function Wire(suite: Suite, f: Frag): seq<Byte> {
    match suite
    case Ccnx => CcnWire(f)
    case Ndn => NdnWire(f)
    case Other => []
  }

  // ----- sizes of fragments on the wire -----

  lemma HeadSize(typ: nat, len: nat)
    requires typ < 253
    ensures |Head(typ, len)| == 2 + VarSize(len)
  {
  }

  lemma NdnWireSize(f: Frag)
    ensures |NdnWire(f)| == NdnHeader(|f.payload|) + |f.payload|
  {
    hide Head, FlagsAndSeq, BigEndian;
    TwoBytes(f);
  }

  lemma TwoBytes(f: Frag)
    ensures |FlagsAndSeq(f)| == 2
  {
  }

  /** The header grows with the payload, so that the estimate made for a longer payload bounds it. */
  lemma NdnHeaderMonotone(n: nat, m: nat)
    requires n <= m
    ensures NdnHeader(n) <= NdnHeader(m)
  {
    hide Head;
    HeadSize(TLV_FRAGMENT_PAYLOAD, n);
    HeadSize(TLV_FRAGMENT_PAYLOAD, m);
    HeadSize(TLV_BEGIN_END_FIELDS, 2);
    forall k: nat ensures |Head(TLV_FRAGMENT, k)| == 2 + VarSize(k) { HeadSize(TLV_FRAGMENT, k); }
  }

  lemma NdnHeaderSize(n: nat)
    ensures NdnHeader(n) == 8 + VarSize(n) + VarSize(6 + VarSize(n) + n)
  {
    hide Head;
    HeadSize(TLV_FRAGMENT_PAYLOAD, n);
    HeadSize(TLV_BEGIN_END_FIELDS, 2);
    HeadSize(TLV_FRAGMENT, 6 + VarSize(n) + n);
  }

  /** Below the smallest NDN header, the header estimate would no longer hold. */
  predicate SaneMtu(mtu: nat) {
    8 <= mtu < 0x8000_0000
  }

  /** A fragment carries something unless the MTU is exactly the smallest header. */
  lemma ProgressUnlessHeaderOnly(suite: Suite, mtu: nat, remaining: nat)
    requires suite != Other && SaneMtu(mtu)
    ensures PayloadLen(suite, mtu, remaining) == 0 <==> remaining == 0 || mtu == HeaderLen(suite)
  {
    NdnHeaderSize(Min(remaining, mtu));
  }

  /** A fragment fits the MTU exactly if the smallest header does. */
  lemma FragmentFitsMtu(suite: Suite, mtu: nat, f: Frag, remaining: nat)
    requires suite != Other && SaneMtu(mtu) && |f.payload| == PayloadLen(suite, mtu, remaining)
    ensures |Wire(suite, f)| <= mtu <==> HeaderLen(suite) <= mtu
  {
    hide NdnHeader, NdnWire, CcnHeader;
    if suite == Ndn {
      var estimate := Min(remaining, mtu);
      NdnWireSize(f);
      NdnHeaderSize(estimate);
      assert NdnHeader(estimate) <= mtu;
      NdnHeaderMonotone(|f.payload|, estimate);
    }
  }

  /** A fragment that does not take all that remains fills the MTU: to the last byte in CCNx, and in
      NDN but for the four bytes by which the header of a shorter payload may be shorter. */
  lemma FragmentFillsMtu(suite: Suite, mtu: nat, f: Frag, remaining: nat)
    requires suite != Other && SaneMtu(mtu) && HeaderLen(suite) <= mtu
    requires |f.payload| == PayloadLen(suite, mtu, remaining) && |f.payload| < remaining
    ensures suite == Ccnx ==> |Wire(suite, f)| == mtu
    ensures mtu - 4 <= |Wire(suite, f)| <= mtu
  {
    hide NdnHeader, NdnWire, CcnHeader;
    FragmentFitsMtu(suite, mtu, f, remaining);
    if suite == Ndn {
      var estimate := Min(remaining, mtu);
      NdnWireSize(f);
      NdnHeaderSize(estimate);
      NdnHeaderSize(|f.payload|);
    }
  }

  // ----- making fragments -----

  /** The two header bytes with flags and sequence number, as one number. */
  method FlagsField(datalen: nat, total: nat, sendoffs: nat, sendseq: nat) returns (tmp: nat)
    requires sendoffs <= total
    ensures tmp == FlagBits(FlagOf(datalen, sendoffs, total)) * SEQ_SPACE + sendseq % SEQ_SPACE
  {
    tmp := sendseq % SEQ_SPACE;
    if datalen >= total {
      tmp := tmp + 3 * SEQ_SPACE;
    } else if sendoffs == 0 {
      tmp := tmp + 1 * SEQ_SPACE;
    } else if datalen >= total - sendoffs {
      tmp := tmp + 2 * SEQ_SPACE;
    }
  }

  /** A whole CCNx fragment: header and payload are filled into a buffer of the computed size. */
  method CcntlvMkFrag(mtu: nat, bigpkt: seq<Byte>, sendoffs: nat, sendseq: nat) returns (buf: array<Byte>, consumed: nat)
    requires mtu < 0x8000_0000 && sendoffs <= |bigpkt|
    ensures fresh(buf) && consumed == PayloadLen(Ccnx, mtu, |bigpkt| - sendoffs)
    ensures buf[..] == CcnWire(Frag(FlagOf(consumed, sendoffs, |bigpkt|), sendseq % SEQ_SPACE,
                                    bigpkt[sendoffs..sendoffs + consumed]))
  {
    hide CcnHeader, FlagOf, FlagBits;
    var datalen := Low32(mtu - CCN_HEADER);
    if datalen > |bigpkt| - sendoffs {
      datalen := |bigpkt| - sendoffs;
    }
    var tmp := FlagsField(datalen, |bigpkt|, sendoffs, sendseq);
    consumed := datalen;
    ghost var f := Frag(FlagOf(consumed, sendoffs, |bigpkt|), sendseq % SEQ_SPACE, bigpkt[sendoffs..sendoffs + consumed]);
    buf := new Byte[CCN_HEADER + datalen];
    forall i | 0 <= i < datalen {
      buf[CCN_HEADER + i] := bigpkt[sendoffs + i];
    }
    assert buf[CCN_HEADER..] == f.payload;
    FillHeader(buf, tmp, datalen, f);
    assert buf[..] == buf[..CCN_HEADER] + buf[CCN_HEADER..];
  }

  method FillHeader(buf: array<Byte>, tmp: nat, datalen: nat, ghost f: Frag)
    requires buf.Length >= CCN_HEADER && datalen == |f.payload|
    requires tmp == FlagBits(f.flag) * SEQ_SPACE + f.seqno % SEQ_SPACE
    modifies buf
    ensures buf[..CCN_HEADER] == CcnHeader(f) && buf[CCN_HEADER..] == old(buf[CCN_HEADER..])
  {
    hide CcnHeader, FlagBits;
    CcnHeaderBytes(f);
    var pktlen := CCN_HEADER + datalen;
    buf[0], buf[1], buf[2], buf[3] := CCN_VERSION, CCN_FRAGMENT, pktlen / 256 % 256, pktlen % 256;
    buf[4], buf[5], buf[6], buf[7] := 0, tmp / 256 % 256, tmp % 256, 8;
    buf[8], buf[9], buf[10], buf[11] := 0, CCN_TL_FRAGMENT, datalen / 256 % 256, datalen % 256;
  }

  lemma TwoBytesOf(v: nat)
    ensures BigEndian(v, 2) == [v / 256 % 256, v % 256]
  {
    assert BigEndian(v / 256, 1) == BigEndian(v / 256 / 256, 0) + [v / 256 % 256];
  }

  lemma CcnHeaderBytes(f: Frag)
    ensures var l, t, n := CCN_HEADER + |f.payload|, FlagBits(f.flag) * SEQ_SPACE + f.seqno % SEQ_SPACE, |f.payload|;
            CcnHeader(f) == [1, 3, l / 256 % 256, l % 256, 0, t / 256 % 256, t % 256, 8, 0, 5, n / 256 % 256, n % 256]
  {
    TwoBytesOf(CCN_HEADER + |f.payload|);
    TwoBytesOf(FlagBits(f.flag) * SEQ_SPACE + f.seqno % SEQ_SPACE);
    TwoBytesOf(CCN_TL_FRAGMENT);
    TwoBytesOf(|f.payload|);
  }

  /** The head of the payload, and the flags with the number, are put in front of it. */
  method ComposePayload(w: Writer, tmp: nat, ghost f: Frag)
    requires w.Valid() && w.out == f.payload && |f.payload| + 4 + VarSize(|f.payload|) <= w.buf.Length
    requires tmp == FlagBits(f.flag) * SEQ_SPACE + f.seqno % SEQ_SPACE
    modifies w, w.buf
    ensures w.Valid() && w.out == NdnFragment(f)
  {
    HeadSize(TLV_FRAGMENT_PAYLOAD, |f.payload|);
    FragmentParts(f, tmp);
    hide Head, NdnFragment, FlagsAndSeq, Writer.Valid, FlagBits, VarSize;
    var low, high := tmp % 256, tmp / 256 % 256;
    assert NdnFragment(f) == [high] + ([low] + (Head(TLV_FRAGMENT_PAYLOAD, |f.payload|) + f.payload));
    var ok := w.PrependTL(TLV_FRAGMENT_PAYLOAD, w.buf.Length - w.offset);
    ok := w.PrependByte(low);
    ok := w.PrependByte(high);
  }

  lemma FragmentParts(f: Frag, tmp: nat)
    requires tmp == FlagBits(f.flag) * SEQ_SPACE + f.seqno % SEQ_SPACE
    ensures NdnFragment(f) == [tmp / 256 % 256] + ([tmp % 256] + (Head(TLV_FRAGMENT_PAYLOAD, |f.payload|) + f.payload))
  {
    hide Head, FlagsAndSeq, FlagBits;
    FlagBytes(f);
  }

  /** The outer heads are put in front, each if there is room for it. */
  method ComposeNdn(w: Writer, tmp: nat, ghost f: Frag)
    requires w.Valid() && w.out == f.payload && Short(f.payload)
    requires |NdnWire(f)| <= w.buf.Length || w.buf.Length == |f.payload| + 8
    requires tmp == FlagBits(f.flag) * SEQ_SPACE + f.seqno % SEQ_SPACE
    modifies w, w.buf
    ensures w.Valid() && w.out == if |NdnWire(f)| <= w.buf.Length then NdnWire(f) else NdnHeadless(f)
  {
    hide Head, NdnWire, NdnFragment, Writer.Valid, FlagBits;
    NdnRoom(f);
    ComposePayload(w, tmp, f);
    ghost var inner := NdnFragment(f);
    var ok := w.PrependTL(TLV_BEGIN_END_FIELDS, 2);
    if ok {
      inner := Head(TLV_BEGIN_END_FIELDS, 2) + inner;
    }
    assert w.out == inner;
    ok := w.PrependTL(TLV_FRAGMENT, w.buf.Length - w.offset);
  }

  lemma NdnRoom(f: Frag)
    ensures var n, inner := |f.payload|, Head(TLV_BEGIN_END_FIELDS, 2) + NdnFragment(f);
            && |NdnFragment(f)| == 4 + VarSize(n) + n && |inner| == 6 + VarSize(n) + n
            && |Head(TLV_FRAGMENT, |inner|)| == 2 + VarSize(|inner|)
            && NdnWire(f) == Head(TLV_FRAGMENT, |inner|) + inner
  {
    hide Head, FlagsAndSeq;
    TwoBytes(f);
    HeadSize(TLV_FRAGMENT_PAYLOAD, |f.payload|);
    HeadSize(TLV_BEGIN_END_FIELDS, 2);
    HeadSize(TLV_FRAGMENT, 6 + VarSize(|f.payload|) + |f.payload|);
    assert Field(TLV_BEGIN_END_FIELDS, FlagsAndSeq(f)) + Field(TLV_FRAGMENT_PAYLOAD, f.payload)
        == Head(TLV_BEGIN_END_FIELDS, 2) + NdnFragment(f);
  }

  lemma FlagBytes(f: Frag)
    ensures var t := FlagBits(f.flag) * SEQ_SPACE + f.seqno % SEQ_SPACE;
            FlagsAndSeq(f) == [t / 256 % 256, t % 256]
  {
    TwoBytesOf(FlagBits(f.flag) * SEQ_SPACE + f.seqno % SEQ_SPACE);
  }

  /** An NDN fragment is composed backwards in a buffer of the estimated size, then moved to its start. */
  method NdntlvMkFrag(mtu: nat, bigpkt: seq<Byte>, sendoffs: nat, sendseq: nat) returns (buf: seq<Byte>, consumed: nat)
    requires mtu < 0x8000_0000 && sendoffs <= |bigpkt| && Short(bigpkt)
    ensures consumed == PayloadLen(Ndn, mtu, |bigpkt| - sendoffs)
    ensures var f := Frag(FlagOf(consumed, sendoffs, |bigpkt|), sendseq % SEQ_SPACE,
                          bigpkt[sendoffs..sendoffs + consumed]);
            buf == if SaneMtu(mtu) then NdnWire(f) else NdnHeadless(f)
  {
    hide NdnHeader, NdnWire, NdnHeadless, Head, FlagOf, FlagBits, Writer.Valid;
    var datalen := Min(|bigpkt| - sendoffs, mtu);
    var hdrlen := NdnEstimate(datalen);
    datalen := |bigpkt| - sendoffs;
    if datalen > Low32(mtu - hdrlen) {
      datalen := Low32(mtu - hdrlen);
    }
    consumed := datalen;
    ghost var f := Frag(FlagOf(consumed, sendoffs, |bigpkt|), sendseq % SEQ_SPACE, bigpkt[sendoffs..sendoffs + consumed]);
    RealHeader(f, mtu, |bigpkt| - sendoffs);
    var w := new Writer(datalen + hdrlen);
    w.PrependBytes(bigpkt[sendoffs..sendoffs + datalen]);
    var tmp := FlagsField(datalen, |bigpkt|, sendoffs, sendseq);
    ComposeNdn(w, tmp, f);
    buf := w.buf[w.offset..];
    OutIsBuffer(w);
  }

  /** There is room for the real header, or else for 8 bytes. */
  lemma RealHeader(f: Frag, mtu: nat, remaining: nat)
    requires |f.payload| == PayloadLen(Ndn, mtu, remaining)
    ensures SaneMtu(mtu) ==> |NdnWire(f)| <= |f.payload| + NdnHeader(Min(remaining, mtu))
    ensures mtu < 8 ==> NdnHeader(Min(remaining, mtu)) == 8
    ensures |NdnWire(f)| <= |f.payload| + 8 ==> NdnHeadless(f) == NdnWire(f)
  {
    hide Head, NdnWire, NdnHeader;
    NdnRoom(f);
    NdnHeaderSize(Min(remaining, mtu));
    if SaneMtu(mtu) {
      RealHeaderFits(f, mtu, remaining);
    }
  }

  lemma OutIsBuffer(w: Writer)
    requires w.Valid()
    ensures w.buf[w.offset..] == w.out
  {
  }

  lemma RealHeaderFits(f: Frag, mtu: nat, remaining: nat)
    requires SaneMtu(mtu) && |f.payload| == PayloadLen(Ndn, mtu, remaining)
    ensures |NdnWire(f)| <= |f.payload| + NdnHeader(Min(remaining, mtu))
  {
    hide Head, NdnWire, NdnHeader;
    NdnWireSize(f);
    NdnHeaderSize(Min(remaining, mtu));
    assert NdnHeader(Min(remaining, mtu)) <= mtu;
    NdnHeaderMonotone(|f.payload|, Min(remaining, mtu));
  }

  /** The header size is found by composing one in a scratch buffer. */
  method NdnEstimate(datalen: nat) returns (hdrlen: nat)
    requires datalen <= 0xffff_ffff - 20
    ensures hdrlen == NdnHeader(datalen)
  {
    hide Head, Writer.Valid;
    HeadSize(TLV_FRAGMENT_PAYLOAD, datalen);
    HeadSize(TLV_BEGIN_END_FIELDS, 2);
    var test := new Writer(20);
    var ok := test.PrependTL(TLV_FRAGMENT_PAYLOAD, datalen);
    hdrlen := 20 - test.offset;
    ok := test.PrependTL(TLV_BEGIN_END_FIELDS, 2);
    hdrlen := 20 - test.offset + 2;
    HeadSize(TLV_FRAGMENT, hdrlen + datalen);
    ok := test.PrependTL(TLV_FRAGMENT, hdrlen + datalen);
    hdrlen := 20 - test.offset + 2;
  }

  /** The bytes of a fragment: two bits for its place in the packet and fourteen for its number, in a
      CCNx packet of type 3 with a field of type 5, or in an NDN field of type 100 with fields of types
      92 and 82. */
  lemma FragmentLayout(f: Frag)
    requires f.seqno < 0x4000
    ensures var t := f.seqno + if f.flag.Mid? then 0 else if f.flag.First? then 0x4000 else if f.flag.Last? then 0x8000 else 0xc000;
            var n := |f.payload|;
            && NdnWire(f) == Field(100, Field(92, [t / 256, t % 256]) + Field(82, f.payload))
            && CcnWire(f) == [1, 3, (12 + n) / 256 % 256, (12 + n) % 256, 0, t / 256, t % 256, 8,
                              0, 5, n / 256 % 256, n % 256] + f.payload
  {
    hide Field, CcnHeader, FlagsAndSeq;
    FlagBytes(f);
    CcnHeaderBytes(f);
  }

  // ----- receiving fragments -----

  /** A fragment in a CCNx datagram: its payload is all that follows in the datagram. The hop limit
      is counted down in an unsigned byte, so that 0 passes and only 1 is dropped. */
  function ParseCcn(s: seq<Byte>): Option<Frag> {
    if |s| < 8 || s[0] != CCN_VERSION || s[7] > |s| then None
    else
      var hdrlen, pktlen := s[7], NonNegInt(s[2..4]);
      if pktlen < hdrlen || pktlen > |s| || s[1] != CCN_FRAGMENT || s[4] == 1 then None
      else
        var d, x := s[hdrlen..], NonNegInt(s[5..7]);
        if |d| < 4 || NonNegInt(d[0..2]) != CCN_TL_FRAGMENT || NonNegInt(d[2..4]) != pktlen - hdrlen - 4 then None
        else Some(FragOf(x, d[4..]))
  }

  /** The 16 header bits with flags and sequence number. */
  function FragOf(x: nat, payload: seq<Byte>): Frag {
    Frag(BitsFlag(x / SEQ_SPACE % 2 == 1, x / SEQ_SPACE / 2 % 2 == 1), x % SEQ_SPACE, payload)
  }

  function ParseNdn(s: seq<Byte>): Option<Frag> {
    match ParsePacket(s)
    case None => None
    case Some(p) =>
      if p.kind != Fragment then None
      else Some(Frag(BitsFlag(p.begin, p.end), Low32(p.val), if p.content.Some? then p.content.value else []))
  }

  function ParseWire(s: seq<Byte>): Option<Frag> {
    match SuiteOf(s)
    case Ccnx => ParseCcn(s)
    case Ndn => ParseNdn(s)
    case Other => None
  }

  lemma TwoBytesRead(a: Byte, b: Byte)
    ensures NonNegInt([a, b]) == a * 256 + b
  {
    assert [a, b][..1] == [a] && [a][..0] == [];
    assert NonNegInt([a]) == NonNegInt([]) * 256 + a;
  }

  lemma TwoBytesMod(v: nat)
    ensures NonNegInt([v / 256 % 256, v % 256]) == v % 0x1_0000
  {
    TwoBytesRead(v / 256 % 256, v % 256);
  }

  lemma FlagsRead(f: Frag)
    requires f.seqno < SEQ_SPACE
    ensures var x := FlagBits(f.flag) * SEQ_SPACE + f.seqno;
            x < 0x1_0000 && x % SEQ_SPACE == f.seqno
            && f.flag == BitsFlag(x / SEQ_SPACE % 2 == 1, x / SEQ_SPACE / 2 % 2 == 1)
            && NonNegInt([x / 256 % 256, x % 256]) == x
  {
    var x := FlagBits(f.flag) * SEQ_SPACE + f.seqno;
    assert x / SEQ_SPACE == FlagBits(f.flag) && x % SEQ_SPACE == f.seqno;
    TwoBytesRead(x / 256 % 256, x % 256);
  }

  lemma CcnSlices(f: Frag)
    ensures var s, l, n, t := CcnWire(f), CCN_HEADER + |f.payload|, |f.payload|,
                              FlagBits(f.flag) * SEQ_SPACE + f.seqno % SEQ_SPACE;
            && |s| == l && s[0] == CCN_VERSION && s[1] == CCN_FRAGMENT && s[4] == 0 && s[7] == 8
            && s[2..4] == [l / 256 % 256, l % 256] && s[5..7] == [t / 256 % 256, t % 256]
            && s[8..][0..2] == [0, 5] && s[8..][2..4] == [n / 256 % 256, n % 256] && s[8..][4..] == f.payload
  {
    hide CcnHeader, FlagBits;
    CcnHeaderBytes(f);
    var h, s := CcnHeader(f), CcnWire(f);
    assert s[..12] == h && s[12..] == f.payload;
    assert s[2..4] == h[2..4] && s[5..7] == h[5..7] && s[8..][0..2] == h[8..10] && s[8..][2..4] == h[10..12];
  }

  lemma ParseCcnStep(s: seq<Byte>, pktlen: nat, x: nat, n: nat, payload: seq<Byte>)
    requires |s| >= 12 && s[0] == CCN_VERSION && s[1] == CCN_FRAGMENT && s[4] == 0 && s[7] == 8 && pktlen <= |s|
    requires NonNegInt(s[2..4]) == pktlen && NonNegInt(s[5..7]) == x
    requires NonNegInt(s[8..][0..2]) == CCN_TL_FRAGMENT && NonNegInt(s[8..][2..4]) == n && s[8..][4..] == payload
    ensures ParseCcn(s)
         == if pktlen < 8 || n != pktlen - 12 then None
            else Some(FragOf(x, payload))
  {
    hide NonNegInt, FragOf;
  }

  lemma FragRead(f: Frag)
    requires f.seqno < SEQ_SPACE
    ensures var t := FlagBits(f.flag) * SEQ_SPACE + f.seqno % SEQ_SPACE;
            FragOf(NonNegInt([t / 256 % 256, t % 256]), f.payload) == f
  {
    hide NonNegInt, FlagBits, BitsFlag;
    FlagsRead(f);
  }

  lemma CcnFieldsRead(f: Frag)
    requires f.seqno < SEQ_SPACE
    ensures var s := CcnWire(f);
            && |s| == CCN_HEADER + |f.payload| && s[0] == CCN_VERSION && s[1] == CCN_FRAGMENT && s[4] == 0 && s[7] == 8
            && NonNegInt(s[2..4]) == (CCN_HEADER + |f.payload|) % 0x1_0000
            && FragOf(NonNegInt(s[5..7]), f.payload) == f
            && NonNegInt(s[8..][0..2]) == CCN_TL_FRAGMENT && NonNegInt(s[8..][2..4]) == |f.payload| % 0x1_0000
            && s[8..][4..] == f.payload
  {
    hide NonNegInt, CcnWire, FlagBits, FragOf;
    CcnSlices(f);
    FragRead(f);
    TwoBytesMod(CCN_HEADER + |f.payload|);
    TwoBytesMod(|f.payload|);
    TwoBytesRead(0, 5);
  }

  /** The hop limit of a CCNx fragment does not matter, unless it is 1: then the fragment is dropped. */
  lemma HopLimit(f: Frag, hops: Byte)
    requires f.seqno < SEQ_SPACE
    ensures ParseCcn(CcnWire(f)[4 := hops]) == if hops == 1 then None else ParseCcn(CcnWire(f))
  {
    hide NonNegInt, CcnWire, FragOf;
    CcnSlices(f);
    var s := CcnWire(f);
    var t := s[4 := hops];
    assert t[2..4] == s[2..4] && t[5..7] == s[5..7] && t[8..] == s[8..];
  }

  /** A CCNx fragment is read back exactly if its 16-bit length does not overflow within the last
      twelve payload sizes of a 64K cycle. */
  lemma CcnWireRoundTrip(f: Frag)
    requires f.seqno < SEQ_SPACE
    ensures ParseCcn(CcnWire(f)) == if |f.payload| % 0x1_0000 < 0x1_0000 - CCN_HEADER then Some(f) else None
  {
    hide NonNegInt, CcnWire, FragOf, ParseCcn;
    CcnFieldsRead(f);
    var s, n := CcnWire(f), |f.payload|;
    Carry(n);
    ParseCcnStep(s, NonNegInt(s[2..4]), NonNegInt(s[5..7]), NonNegInt(s[8..][2..4]), f.payload);
  }

  lemma Carry(n: nat)
    ensures (CCN_HEADER + n) % 0x1_0000
         == if n % 0x1_0000 < 0x1_0000 - CCN_HEADER then n % 0x1_0000 + CCN_HEADER else n % 0x1_0000 + CCN_HEADER - 0x1_0000
  {
  }

  lemma BeginEndField(t: seq<Byte>, x: nat, p: Packet)
    requires |t| >= 2 && NonNegInt(t[..2]) == x < 0x1_0000 && !p.begin && !p.end
    ensures ParseField(TLV_BEGIN_END_FIELDS, t, 2, p)
         == Some(p.(val := x % SEQ_SPACE, begin := x / SEQ_SPACE % 2 == 1, end := x / SEQ_SPACE / 2 % 2 == 1))
  {
    hide NonNegInt, ParseName, ParseSelectors, ParseMetaInfo;
  }

  lemma BeginEndStep(f: Frag, rest: seq<Byte>, p: Packet)
    requires f.seqno < SEQ_SPACE && !p.begin && !p.end
    ensures var x := FlagBits(f.flag) * SEQ_SPACE + f.seqno;
            ParseFields(Field(TLV_BEGIN_END_FIELDS, FlagsAndSeq(f)) + rest, p)
            == ParseFields(rest, p.(val := f.seqno, begin := x / SEQ_SPACE % 2 == 1, end := x / SEQ_SPACE / 2 % 2 == 1))
  {
    hide Field, ParseFields, FlagsAndSeq, NonNegInt, BitsFlag, FlagBits, ParseField;
    var fields := FlagsAndSeq(f);
    TwoBytes(f);
    FieldStep(TLV_BEGIN_END_FIELDS, fields, rest, p);
    FlagBytes(f);
    FlagsRead(f);
    assert (fields + rest)[..2] == fields;
    BeginEndField(fields + rest, FlagBits(f.flag) * SEQ_SPACE + f.seqno, p);
  }

  lemma PayloadStep(payload: seq<Byte>, p: Packet)
    requires Short(payload)
    ensures ParseFields(Field(TLV_FRAGMENT_PAYLOAD, payload), p) == Some(p.(content := Some(payload)))
  {
    hide Field, ParseFields;
    FieldStep(TLV_FRAGMENT_PAYLOAD, payload, [], p);
    assert Field(TLV_FRAGMENT_PAYLOAD, payload) + [] == Field(TLV_FRAGMENT_PAYLOAD, payload);
    assert payload + [] == payload && payload[..|payload|] == payload;
    NothingLeft(p.(content := Some(payload)));
  }

  lemma NdnWireRoundTrip(f: Frag)
    requires f.seqno < SEQ_SPACE && Short(NdnWire(f))
    ensures ParseNdn(NdnWire(f)) == Some(f)
  {
    hide Field, ParseFields, ParsePacket, FlagsAndSeq, BitsFlag, FlagBits, ParseField;
    var payload := Field(TLV_FRAGMENT_PAYLOAD, f.payload);
    var body := Field(TLV_BEGIN_END_FIELDS, FlagsAndSeq(f)) + payload;
    FieldNotEmpty(TLV_FRAGMENT, body);
    FieldNotEmpty(TLV_FRAGMENT_PAYLOAD, f.payload);
    PacketReads(Fragment, TLV_FRAGMENT, body);
    var x := FlagBits(f.flag) * SEQ_SPACE + f.seqno;
    var p := NewPacket(Fragment);
    var q := p.(val := f.seqno, begin := x / SEQ_SPACE % 2 == 1, end := x / SEQ_SPACE / 2 % 2 == 1);
    BeginEndStep(f, payload, p);
    PayloadStep(f.payload, q);
    FlagsRead(f);
  }

  predicate Sendable(suite: Suite, f: Frag) {
    && f.seqno < SEQ_SPACE && suite != Other && Short(NdnWire(f))
    && (suite == Ccnx ==> |f.payload| < 0x1_0000 - CCN_HEADER)
  }

  lemma WireSuite(suite: Suite, f: Frag)
    requires suite != Other
    ensures SuiteOf(Wire(suite, f)) == suite
  {
    hide Field, CcnWire;
    CcnSlices(f);
    FieldNotEmpty(TLV_FRAGMENT, Field(TLV_BEGIN_END_FIELDS, FlagsAndSeq(f)) + Field(TLV_FRAGMENT_PAYLOAD, f.payload));
  }

  /** Any fragment of either suite, sent as a datagram, is read back. */
  lemma WireRoundTrip(suite: Suite, f: Frag)
    requires Sendable(suite, f)
    ensures ParseWire(Wire(suite, f)) == Some(f)
  {
    hide ParseCcn, ParseNdn, CcnWire, NdnWire;
    WireSuite(suite, f);
    if suite == Ccnx {
      CcnWireRoundTrip(f);
    } else {
      NdnWireRoundTrip(f);
    }
  }
}
