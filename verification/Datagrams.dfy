/** Concrete UDP datagrams: for all addresses, ports and a payload word there is one with a
    valid checksum, raw as from the tunnel or in an Ethernet frame as from the WAN. */
module Datagrams {
  import opened Wrappers
  import opened Words
  import opened Addresses
  import opened Checksum
  import opened Packets
  import opened ChecksumLaws
  import opened RoundTrip

  const ETHERNET: seq<Byte> := [0, 0, 0, 0, 0, 0, 0, 0, 0, 0, 0, 0, 0x86, 0xdd]

  ghost predicate IsLink(link: seq<Byte>) {
    link == [] || link == ETHERNET
  }

  /** Version, payload length 10, UDP, hop limit. */
  const FIXED: seq<Byte> := [0x60, 0, 0, 0, 0, 10, 17, 64]

  const UDP_LENGTH: seq<Byte> := [0, 10]

  /** A datagram with one payload word. */
  function Datagram(link: seq<Byte>, src: Address, dst: Address, ports: seq<Byte>, field: nat, word: nat): seq<Byte>
    requires |ports| == 4 && field <= ONES && word <= ONES
  {
    link + FIXED + src + dst + Udp(ports, field, word)
  }

  function Udp(ports: seq<Byte>, field: nat, word: nat): (s: seq<Byte>)
    requires |ports| == 4 && field <= ONES && word <= ONES
    ensures |s| == 10
  {
    ports + UDP_LENGTH + WordBytes(field) + WordBytes(word)
  }

  function PortBytes(port: bv16): (b: seq<Byte>)
    ensures |b| == 2
  {
    [(port >> 8) as Byte, (port & 0xFF) as Byte]
  }

  lemma PortOfBytes(port: bv16)
    ensures Be16(PortBytes(port)[0], PortBytes(port)[1]) == port
  {
  }

  lemma LiteralWords()
    ensures Word(0, 10) == 10
  {
    assert Word(WordBytes(10)[0], WordBytes(10)[1]) == 10 by {
      WordOfBytes(10);
    }
  }

  lemma DatagramParts(link: seq<Byte>, src: Address, dst: Address, ports: seq<Byte>, field: nat, word: nat)
    requires IsLink(link) && |ports| == 4 && field <= ONES && word <= ONES
    ensures var (p, off) := (Datagram(link, src, dst, ports, field, word), |link|);
            && |p| == off + 50 && p[..off] == link && p[off..off + 8] == FIXED
            && p[off + 8..off + 24] == src && p[off + 24..off + 40] == dst && p[off + 40..] == Udp(ports, field, word)
  {
    hide Udp;
  }

  lemma UdpParts(ports: seq<Byte>, field: nat, word: nat)
    requires |ports| == 4 && field <= ONES && word <= ONES
    ensures var s := Udp(ports, field, word);
            s[..4] == ports && s[4..6] == UDP_LENGTH && s[6..8] == WordBytes(field) && s[8..] == WordBytes(word)
  {
    hide WordBytes;
  }

  lemma DatagramReads(link: seq<Byte>, src: Address, dst: Address, ports: seq<Byte>, field: nat, word: nat)
    requires IsLink(link) && |ports| == 4 && field <= ONES && word <= ONES
    ensures var (p, off) := (Datagram(link, src, dst, ports, field, word), |link|);
            && Ipv6Offset(p) == Some(off) && IsFlow(p, off) && NextHeader(p, off) == PROTO_UDP
            && SrcAddr(p, off) == src && DstAddr(p, off) == dst
            && SrcPort(p, off) == Be16(ports[0], ports[1]) && DstPort(p, off) == Be16(ports[2], ports[3])
            && CsumField(p, off) == field
            && HasSegment(p, off) && PayloadLen(p, off) == 10 && Segment(p, off) == Udp(ports, field, word)
  {
    hide Datagram, Udp, Word, WordBytes, Be16;
    var (p, off, s) := (Datagram(link, src, dst, ports, field, word), |link|, Udp(ports, field, word));
    DatagramParts(link, src, dst, ports, field, word);
    UdpParts(ports, field, word);
    LinkIsRead(p, link);
    LiteralWords();
    WordOfBytes(field);
    assert p[off + 6] == FIXED[6] && p[off + 4] == FIXED[4] && p[off + 5] == FIXED[5];
    assert forall k :: 0 <= k < 10 ==> p[off + 40 + k] == s[k];
    assert forall k :: 0 <= k < 4 ==> s[k] == ports[k];
    assert s[6] == WordBytes(field)[0] && s[7] == WordBytes(field)[1];
  }

  lemma LinkIsRead(p: seq<Byte>, link: seq<Byte>)
    requires IsLink(link) && |p| >= |link| + 8 && p[..|link|] == link && p[|link|..|link| + 8] == FIXED
    ensures Ipv6Offset(p) == Some(|link|)
    ensures link == ETHERNET ==> IsEthernetIpv6(p) && !LooksLikeRawIpv6(p)
  {
    if link == [] {
      assert p[0] == FIXED[0];
    } else {
      assert p[0] == link[0] && p[12] == link[12] && p[13] == link[13];
    }
  }

  lemma UdpSum(ports: seq<Byte>, field: nat, word: nat)
    requires |ports| == 4 && field <= ONES && word <= ONES
    ensures WordSum(Udp(ports, field, word)) == WordSum(ports) + 10 + field + word
  {
    hide Word, WordBytes;
    WordSumSplit(ports + UDP_LENGTH + WordBytes(field), WordBytes(word));
    WordSumSplit(ports + UDP_LENGTH, WordBytes(field));
    WordSumSplit(ports, UDP_LENGTH);
    WordOfBytes(field);
    WordOfBytes(word);
    LiteralWords();
  }

  /** All that the checksum of a datagram covers, without the field. */
  function RestSum(src: Address, dst: Address, ports: seq<Byte>, word: nat): nat {
    WordSum(src) + WordSum(dst) + WordSum(ports) + 37 + word
  }

  lemma DatagramSum(link: seq<Byte>, src: Address, dst: Address, ports: seq<Byte>, field: nat, word: nat)
    requires IsLink(link) && |ports| == 4 && field <= ONES && word <= ONES
    ensures var (p, off) := (Datagram(link, src, dst, ports, field, word), |link|);
            HasSegment(p, off) && CoveredSum(p, off) == RestSum(src, dst, ports, word) + field
  {
    hide Datagram, Udp, Word, WordSum, Be16;
    DatagramReads(link, src, dst, ports, field, word);
    UdpSum(ports, field, word);
    ProtocolNumber();
  }

  lemma ProtocolNumber()
    ensures PROTO_UDP as nat == 17
  {
  }

  /** The checksum a sender computes; a zero is sent as all ones. */
  function SentField(rest: nat): (f: nat)
    ensures 0 < f <= ONES
  {
    ONES - rest % 65535
  }

  lemma SentFieldVerifies(rest: nat)
    ensures Fold(rest + SentField(rest)) == ONES
  {
    hide Fold;
    assert rest + SentField(rest) == 65535 * (rest / 65535 + 1);
    FoldIsOnes(rest + SentField(rest));
  }

  function ValidDatagram(link: seq<Byte>, src: Address, dst: Address, ports: seq<Byte>, word: nat): seq<Byte>
    requires |ports| == 4 && word <= ONES
  {
    Datagram(link, src, dst, ports, SentField(RestSum(src, dst, ports, word)), word)
  }

  /** Every such datagram is accepted by a receiver. */
  lemma ValidDatagramIsReceivable(link: seq<Byte>, src: Address, dst: Address, ports: seq<Byte>, word: nat)
    requires IsLink(link) && |ports| == 4 && word <= ONES
    ensures Receivable(ValidDatagram(link, src, dst, ports, word), |link|)
  {
    hide Datagram, Udp, Fold, RestSum, SentField, CoveredSum, HasSegment, IsFlow, Segment, CsumField, Ipv6Offset, Be16,
      SrcPort, DstPort, PayloadLen, SrcAddr, DstAddr;
    var field := SentField(RestSum(src, dst, ports, word));
    DatagramReads(link, src, dst, ports, field, word);
    DatagramSum(link, src, dst, ports, field, word);
    SentFieldVerifies(RestSum(src, dst, ports, word));
  }

  /** Every UDP packet has a mirrored reply with a valid checksum. */
  lemma ValidMirror(q: seq<Byte>, off: nat) returns (r: seq<Byte>)
    requires IsFlow(q, off) && NextHeader(q, off) == PROTO_UDP
    ensures MirrorsReply(q, off, r) && Receivable(r, ETH_LEN)
  {
    hide Datagram, Receivable, Be16, RestSum, SentField;
    var (src, dst) := (DstAddr(q, off), SrcAddr(q, off));
    var ports := [q[off + 42], q[off + 43], q[off + 40], q[off + 41]];
    r := ValidDatagram(ETHERNET, src, dst, ports, 0);
    var field := SentField(RestSum(src, dst, ports, 0));
    DatagramReads(ETHERNET, src, dst, ports, field, 0);
    DatagramParts(ETHERNET, src, dst, ports, field, 0);
    LinkIsRead(r, ETHERNET);
    ValidDatagramIsReceivable(ETHERNET, src, dst, ports, 0);
  }
}
