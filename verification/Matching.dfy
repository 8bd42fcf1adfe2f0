/** Names, packets as the forwarder sees them, and the relations between them. */
module Matching {
  import opened Options
  import opened NdnTlv
  import NdnPacket

  type Name = NdnPacket.Name

  datatype Suite = Ndn | Ccnx | Cisco | Iot

  /** The suffix bounds, the scope and the publisher's key locator are those of NDN, the time to live
      is that of IOT packets. */
  datatype Interest = Interest(suite: Suite, name: Name, minsuffix: int, maxsuffix: int, scope: int, ttl: int,
                               nonce: Option<seq<Byte>>, ppkl: Option<seq<Byte>>)

  /** The digest is that of the whole packet, where the relay is built to compute it. */
  datatype Data = Data(suite: Suite, name: Name, buf: seq<Byte>, digest: Option<seq<Byte>>)

  datatype Mode = Exact | Match | Longest

  /** The length of the longest common prefix. */
  function Common(a: seq<seq<Byte>>, b: seq<seq<Byte>>): (n: nat)
    ensures n <= |a| && n <= |b|
  {
    if a == [] || b == [] || a[0] != b[0] then 0 else 1 + Common(a[1..], b[1..])
  }

  lemma {:induction false} CommonIs(a: seq<seq<Byte>>, b: seq<seq<Byte>>, n: nat)
    requires n <= |a| && n <= |b| && a[..n] == b[..n]
    requires n < |a| && n < |b| ==> a[n] != b[n]
    ensures Common(a, b) == n
    decreases n
  {
    if n > 0 {
      assert a[0] == a[..n][0] == b[..n][0] == b[0];
      assert a[1..][..n - 1] == a[..n][1..] == b[..n][1..] == b[1..][..n - 1];
      CommonIs(a[1..], b[1..], n - 1);
    }
  }

  /** All of `b` is matched exactly if it is a prefix of `a`. */
  lemma {:induction false} CommonIsPrefix(a: seq<seq<Byte>>, b: seq<seq<Byte>>)
    ensures Common(a, b) == |b| <==> b <= a
  {
    if b != [] && a != [] {
      CommonIsPrefix(a[1..], b[1..]);
      assert b <= a <==> a[0] == b[0] && b[1..] <= a[1..] by {
        if a[0] == b[0] && b[1..] <= a[1..] {
          assert b == [b[0]] + b[1..] && a == [a[0]] + a[1..];
        }
      }
    }
  }

  function WithDigest(name: Name, md: Option<seq<Byte>>): seq<seq<Byte>> {
    if md.Some? then name.comps + [md.value] else name.comps
  }

  /** 0 for an exact match, -1 for none; or the number of matching components. */
  method PrefixCmp(pfx: Name, md: Option<seq<Byte>>, nam: Name, mode: Mode) returns (rc: int)
    ensures mode == Exact ==> rc == if WithDigest(pfx, md) == nam.comps && pfx.chunknum == nam.chunknum then 0 else -1
    ensures mode != Exact ==> rc == Common(WithDigest(pfx, md), nam.comps)
  {
    hide Common;
    ghost var all := WithDigest(pfx, md);
    var plen := |pfx.comps| + (if md.Some? then 1 else 0);
    if mode == Exact {
      if plen != |nam.comps| {
        return -1;
      }
      if pfx.chunknum.Some? || nam.chunknum.Some? {
        if pfx.chunknum.None? || nam.chunknum.None? {
          return -1;
        }
        if pfx.chunknum.value != nam.chunknum.value {
          return -1;
        }
      }
    }
    var i := 0;
    while i < plen && i < |nam.comps|
      invariant 0 <= i <= plen && i <= |nam.comps| && all[..i] == nam.comps[..i]
    {
      var comp := if i < |pfx.comps| then pfx.comps[i] else md.value;
      if comp != nam.comps[i] {
        CommonIs(all, nam.comps, i);
        return if mode == Exact then -1 else i;
      }
      i := i + 1;
    }
    CommonIs(all, nam.comps, i);
    assert i == |all| == |nam.comps| ==> all[..i] == all && nam.comps[..i] == nam.comps;
    rc := if mode == Exact then 0 else i;
  }

  /** An NDN interest's name and suffix bounds match a data packet: the name is a prefix of the
      data's, of which the digest may be the last component. */
  function PrefixOfData(name: Name, minsuffix: int, maxsuffix: int, d: Data): bool {
    var n, m := |name.comps|, |d.name.comps| + 1;
    n + minsuffix <= m <= n + maxsuffix && name.comps <= WithDigest(d.name, if n == m then d.digest else None)
  }

  method IPrefixOfC(prefix: Name, minsuffix: int, maxsuffix: int, c: Data) returns (ok: bool)
    ensures ok == PrefixOfData(prefix, minsuffix, maxsuffix, c)
  {
    if |prefix.comps| + minsuffix > |c.name.comps| + 1 || |prefix.comps| + maxsuffix < |c.name.comps| + 1 {
      return false;
    }
    var md := if |prefix.comps| - |c.name.comps| == 1 then c.digest else None;
    var rc := PrefixCmp(c.name, md, prefix, Match);
    CommonIsPrefix(WithDigest(c.name, md), prefix.comps);
    ok := rc == |prefix.comps|;
  }

  /** The data answers the interest; the suites are compared elsewhere, or not at all. */
  predicate Matches(i: Interest, d: Data) {
    match i.suite
    case Ndn => PrefixOfData(i.name, i.minsuffix, i.maxsuffix, d)
    case _ => d.name == i.name
  }

  method CMatch(i: Interest, c: Data) returns (ok: bool)
    ensures ok == Matches(i, c)
  {
    match i.suite {
      case Ndn =>
        ok := IPrefixOfC(i.name, i.minsuffix, i.maxsuffix, c);
      case _ =>
        var rc := PrefixCmp(c.name, None, i.name, Exact);
        ok := rc == 0;
    }
  }

  predicate Same(a: Interest, b: Interest) {
    && a.suite == b.suite && a.name == b.name
    && (a.suite == Ndn ==> a.minsuffix == b.minsuffix && a.maxsuffix == b.maxsuffix && a.ppkl == b.ppkl)
  }

  predicate BufEqual(a: Option<seq<Byte>>, b: Option<seq<Byte>>) {
    a.Some? && b.Some? && a.value == b.value
  }

  method IsSame(i: Interest, pkt: Interest) returns (same: bool)
    ensures same == Same(i, pkt)
  {
    if i.suite != pkt.suite {
      return false;
    }
    var rc := PrefixCmp(i.name, None, pkt.name, Exact);
    if rc != 0 {
      return false;
    }
    match i.suite {
      case Ndn =>
        same := i.minsuffix == pkt.minsuffix && i.maxsuffix == pkt.maxsuffix
                && ((i.ppkl.None? && pkt.ppkl.None?) || BufEqual(i.ppkl, pkt.ppkl));
      case _ =>
        same := true;
    }
  }

  /** The same interests are answered by the same data. */
  lemma SameMatchesSame(a: Interest, b: Interest, d: Data)
    requires Same(a, b)
    ensures Matches(a, d) <==> Matches(b, d)
  {
  }

  /** An NDN interest matches a data packet if between `minsuffix` and `maxsuffix` components follow its
      name in the data's, the digest of the packet counted as the last of them; an interest for which
      none is left asks for the digest. */
  lemma PrefixOfDataExactly(name: Name, minsuffix: int, maxsuffix: int, d: Data)
    ensures var left := |d.name.comps| + 1 - |name.comps|;
            PrefixOfData(name, minsuffix, maxsuffix, d)
            <==> minsuffix <= left <= maxsuffix
                 && if left > 0 then name.comps <= d.name.comps
                    else d.digest.Some? && name.comps == d.name.comps + [d.digest.value]
  {
    var all := WithDigest(d.name, if |name.comps| == |d.name.comps| + 1 then d.digest else None);
    if |name.comps| == |d.name.comps| + 1 && d.digest.Some? {
      assert name.comps <= all <==> name.comps == all;
    }
  }

  /** Without bounds of its own, an NDN interest matches whatever is named below its name. */
  lemma UnboundedMatches(i: Interest, d: Data)
    requires i.suite == Ndn && i.minsuffix == 0 && i.maxsuffix == 64 && |d.name.comps| < 64
    requires i.name.comps <= d.name.comps
    ensures Matches(i, d)
  {
    PrefixOfDataExactly(i.name, i.minsuffix, i.maxsuffix, d);
  }

  /** Interests that differ only in nonce, scope and time to live are the same, and a difference in
      suite or name, or in the bounds or the key locator of an NDN interest, makes them different. */
  lemma SameExactly(a: Interest, b: Interest)
    ensures Same(a, b) <==>
              b == a.(nonce := b.nonce, scope := b.scope, ttl := b.ttl)
              || (a.suite != Ndn && b == a.(nonce := b.nonce, scope := b.scope, ttl := b.ttl, minsuffix := b.minsuffix,
                                            maxsuffix := b.maxsuffix, ppkl := b.ppkl))
  {
  }

  /** Scope and time to live decide whether an interest may be forwarded. */
  predicate ForwardingOk(i: Interest) {
    match i.suite
    case Iot => i.ttl != 0
    case Ndn => i.scope > 2
    case _ => true
  }

  /** The scopes 0 to 2 keep an NDN interest local, a time to live of 0 an IOT packet; an interest
      that was read without a scope has scope 3. */
  lemma ForwardingExactly(i: Interest)
    ensures !ForwardingOk(i) <==> (i.suite == Ndn && i.scope < 3) || (i.suite == Iot && i.ttl == 0)
  {
  }
}
