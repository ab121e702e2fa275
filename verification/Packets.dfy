/** Byte layout of the packets the eBPF programs see, the in-place rewrite they
    perform, and what it does to the transport checksum. */
module Packets {
  import opened Wrappers
  import opened Words
  import opened Addresses
  import opened Checksum

  const ETH_LEN: nat := 14
  const IPV6_LEN: nat := 40

  const PROTO_TCP: Byte := 6
  const PROTO_UDP: Byte := 17
  const PROTO_ICMPV6: Byte := 58

  // -------------------------------------------------------------------------
  // Reading
  // -------------------------------------------------------------------------

  predicate IsEthernetIpv6(p: seq<Byte>) {
    ETH_LEN <= |p| && p[12] == 0x86 && p[13] == 0xdd
  }

  predicate LooksLikeRawIpv6(p: seq<Byte>) {
    |p| > 0 && p[0] >> 4 == 6
  }

  /** Where the IPv6 header starts: raw when the first nibble is 6, else behind Ethernet. */
  function Ipv6Offset(p: seq<Byte>): Option<nat> {
    if LooksLikeRawIpv6(p) then Some(0)
    else if IsEthernetIpv6(p) then Some(ETH_LEN)
    else None
  }

  predicate IsTransport(proto: Byte) {
    proto == PROTO_TCP || proto == PROTO_UDP
  }

  /** Bytes of a TCP or UDP header. */
  function TransportLen(proto: Byte): nat {
    if proto == PROTO_TCP then 20 else 8
  }

  function NextHeader(p: seq<Byte>, off: nat): Byte
    requires off + IPV6_LEN <= |p|
  {
    p[off + 6]
  }

  function SrcAddr(p: seq<Byte>, off: nat): Address
    requires off + IPV6_LEN <= |p|
  {
    p[off + 8..off + 24]
  }

  function DstAddr(p: seq<Byte>, off: nat): Address
    requires off + IPV6_LEN <= |p|
  {
    p[off + 24..off + 40]
  }

  /** A TCP or UDP packet whose whole transport header is present. */
  predicate IsFlow(p: seq<Byte>, off: nat) {
    && off + IPV6_LEN <= |p|
    && IsTransport(NextHeader(p, off))
    && off + IPV6_LEN + TransportLen(NextHeader(p, off)) <= |p|
  }

  function SrcPort(p: seq<Byte>, off: nat): bv16
    requires IsFlow(p, off)
  {
    Be16(p[off + IPV6_LEN], p[off + IPV6_LEN + 1])
  }

  function DstPort(p: seq<Byte>, off: nat): bv16
    requires IsFlow(p, off)
  {
    Be16(p[off + IPV6_LEN + 2], p[off + IPV6_LEN + 3])
  }

  /** Offset of the transport checksum. */
  function CsumOffset(off: nat, proto: Byte): nat {
    off + IPV6_LEN + (if proto == PROTO_TCP then 16 else 6)
  }

  function CsumField(p: seq<Byte>, off: nat): (f: nat)
    requires IsFlow(p, off)
    ensures f <= ONES
  {
    var c := CsumOffset(off, NextHeader(p, off));
    Word(p[c], p[c + 1])
  }

  // -------------------------------------------------------------------------
  // Writing
  // -------------------------------------------------------------------------

  function Splice(p: seq<Byte>, at: nat, bytes: seq<Byte>): seq<Byte>
    requires at + |bytes| <= |p|
  {
    p[..at] + bytes + p[at + |bytes|..]
  }

  /** New source and destination addresses and a new transport checksum. */
  function Rewrite(p: seq<Byte>, off: nat, src: Address, dst: Address, field: nat): (q: seq<Byte>)
    requires IsFlow(p, off) && field <= ONES
    ensures |q| == |p|
  {
    var c := CsumOffset(off, NextHeader(p, off));
    p[..off + 8] + src + dst + p[off + 40..c] + WordBytes(field) + p[c + 2..]
  }

  /** Only the two address fields and the checksum field may differ. */
  ghost predicate DiffersOnlyInRewrite(p: seq<Byte>, q: seq<Byte>, off: nat) {
    && IsFlow(p, off) && |q| == |p|
    && var c := CsumOffset(off, NextHeader(p, off));
       forall i :: 0 <= i < |p| && !(off + 8 <= i < off + 40) && !(c <= i < c + 2) ==> q[i] == p[i]
  }

  lemma RewriteTouchesOnlyFields(p: seq<Byte>, off: nat, src: Address, dst: Address, field: nat)
    requires IsFlow(p, off) && field <= ONES
    ensures DiffersOnlyInRewrite(p, Rewrite(p, off, src, dst, field), off)
  {
  }

  lemma RewriteReadsBack(p: seq<Byte>, off: nat, src: Address, dst: Address, field: nat)
    requires IsFlow(p, off) && field <= ONES
    ensures var q := Rewrite(p, off, src, dst, field);
            && IsFlow(q, off) && NextHeader(q, off) == NextHeader(p, off)
            && SrcAddr(q, off) == src && DstAddr(q, off) == dst
            && SrcPort(q, off) == SrcPort(p, off) && DstPort(q, off) == DstPort(p, off)
            && CsumField(q, off) == field
  {
    hide Word, WordBytes, Be16;
    var q := Rewrite(p, off, src, dst, field);
    RewriteTouchesOnlyFields(p, off, src, dst, field);
    var c := CsumOffset(off, NextHeader(p, off));
    assert q[c..c + 2] == WordBytes(field);
    assert q[c] == q[c..c + 2][0] && q[c + 1] == q[c..c + 2][1];
    WordOfBytes(field);
  }

  lemma RewriteKeepsFraming(p: seq<Byte>, off: nat, src: Address, dst: Address, field: nat)
    requires IsFlow(p, off) && field <= ONES && Ipv6Offset(p) == Some(off)
    ensures Ipv6Offset(Rewrite(p, off, src, dst, field)) == Some(off)
  {
    RewriteTouchesOnlyFields(p, off, src, dst, field);
  }

  // -------------------------------------------------------------------------
  // The transport checksum
  // -------------------------------------------------------------------------

  function PayloadLen(p: seq<Byte>, off: nat): nat
    requires off + IPV6_LEN <= |p|
  {
    Word(p[off + 4], p[off + 5])
  }

  /** The payload length covers the transport header and the packet is not truncated. */
  predicate HasSegment(p: seq<Byte>, off: nat) {
    && IsFlow(p, off)
    && TransportLen(NextHeader(p, off)) <= PayloadLen(p, off)
    && off + IPV6_LEN + PayloadLen(p, off) <= |p|
  }

  function Segment(p: seq<Byte>, off: nat): seq<Byte>
    requires HasSegment(p, off)
  {
    p[off + IPV6_LEN..off + IPV6_LEN + PayloadLen(p, off)]
  }

  /** Everything the checksum covers: the pseudo-header of section 8.1 of RFC 8200
      and the segment, checksum field included. */
  function CoveredSum(p: seq<Byte>, off: nat): nat
    requires HasSegment(p, off)
  {
    WordSum(SrcAddr(p, off)) + WordSum(DstAddr(p, off)) + PayloadLen(p, off) + (NextHeader(p, off) as nat)
    + WordSum(Segment(p, off))
  }

  predicate ChecksumValid(p: seq<Byte>, off: nat) {
    HasSegment(p, off) && Fold(CoveredSum(p, off)) == ONES
  }

  lemma {:induction false} SegmentSum(s: seq<Byte>, c: nat)
    requires c % 2 == 0 && c + 2 <= |s|
    ensures WordSum(s) == WordSum(s[..c]) + Word(s[c], s[c + 1]) + WordSum(s[c + 2..])
  {
    assert s == s[..c] + s[c..];
    WordSumSplit(s[..c], s[c..]);
    assert s[c..][2..] == s[c + 2..];
  }

  lemma RewriteSegment(p: seq<Byte>, off: nat, src: Address, dst: Address, field: nat)
    requires HasSegment(p, off) && field <= ONES
    ensures var q := Rewrite(p, off, src, dst, field);
            && HasSegment(q, off) && PayloadLen(q, off) == PayloadLen(p, off)
            && WordSum(Segment(q, off)) == WordSum(Segment(p, off)) - CsumField(p, off) + field
  {
    hide Word, WordBytes, Be16, WordSum;
    var q := Rewrite(p, off, src, dst, field);
    RewriteReadsBack(p, off, src, dst, field);
    RewriteTouchesOnlyFields(p, off, src, dst, field);
    var c := CsumOffset(off, NextHeader(p, off)) - off - IPV6_LEN;
    var (s, t) := (Segment(p, off), Segment(q, off));
    assert s[..c] == t[..c] && s[c + 2..] == t[c + 2..];
    SegmentSum(s, c);
    SegmentSum(t, c);
  }

  lemma RewriteSum(p: seq<Byte>, off: nat, src: Address, dst: Address, field: nat)
    requires HasSegment(p, off) && field <= ONES
    ensures var q := Rewrite(p, off, src, dst, field);
            && HasSegment(q, off)
            && CoveredSum(q, off) + WordSum(SrcAddr(p, off)) + WordSum(DstAddr(p, off)) + CsumField(p, off)
               == CoveredSum(p, off) + WordSum(src) + WordSum(dst) + field
  {
    hide WordSum, Segment, CsumField;
    RewriteReadsBack(p, off, src, dst, field);
    RewriteSegment(p, off, src, dst, field);
  }

  lemma RewriteHasSegment(p: seq<Byte>, off: nat, src: Address, dst: Address, field: nat)
    requires IsFlow(p, off) && field <= ONES
    ensures HasSegment(Rewrite(p, off, src, dst, field), off) <==> HasSegment(p, off)
  {
    hide Word, WordBytes, Be16;
    RewriteReadsBack(p, off, src, dst, field);
    RewriteTouchesOnlyFields(p, off, src, dst, field);
  }

  lemma CoveredSumPositive(p: seq<Byte>, off: nat)
    requires HasSegment(p, off)
    ensures CoveredSum(p, off) > 0
  {
  }

  /** A rewrite keeps validity, in both directions, when the new field makes up for
      the change of the addresses modulo 65535. */
  lemma RewriteKeepsValidity(p: seq<Byte>, off: nat, src: Address, dst: Address, field: nat)
    requires IsFlow(p, off) && field <= ONES
    requires Congruent(field + WordSum(src) + WordSum(dst),
                       CsumField(p, off) + WordSum(SrcAddr(p, off)) + WordSum(DstAddr(p, off)))
    ensures ChecksumValid(Rewrite(p, off, src, dst, field), off) <==> ChecksumValid(p, off)
  {
    hide Rewrite, CoveredSum, HasSegment, WordSum, Fold, Congruent, CsumField, SrcAddr, DstAddr;
    RewriteHasSegment(p, off, src, dst, field);
    if HasSegment(p, off) {
      var q := Rewrite(p, off, src, dst, field);
      RewriteSum(p, off, src, dst, field);
      var k := Quotient(field + WordSum(src) + WordSum(dst),
                        CsumField(p, off) + WordSum(SrcAddr(p, off)) + WordSum(DstAddr(p, off)));
      SameResidueSameVerdict(CoveredSum(q, off), CoveredSum(p, off), k);
      CoveredSumPositive(p, off);
      CoveredSumPositive(q, off);
    }
  }

  lemma SameResidueSameVerdict(m: nat, n: nat, k: int)
    requires m == n + 65535 * k
    ensures m > 0 && n > 0 ==> (Fold(m) == ONES <==> Fold(n) == ONES)
  {
    hide Fold;
    FoldIsOnes(m);
    FoldIsOnes(n);
  }
}
