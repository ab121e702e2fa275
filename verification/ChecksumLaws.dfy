/** What the reply path does to the transport checksum, with and without the
    dev-mode compensation, and when a UDP checksum field becomes zero. */
module ChecksumLaws {
  import opened Wrappers
  import opened Words
  import opened Addresses
  import opened Checksum
  import opened ProxySource
  import opened Packets
  import opened Datapath

  // -------------------------------------------------------------------------
  // Replies
  // -------------------------------------------------------------------------

  /** Production: valid after `tc_ingress_wan` exactly when valid before. */
  lemma WanKeepsChecksum(p: seq<Byte>, maps: Maps)
    requires PlanWan(p, maps).Deliver? && Wan(maps).None?
    ensures var off := PlanWan(p, maps).off;
            ChecksumValid(TcIngressWan(p, maps).packet, off) <==> ChecksumValid(p, off)
  {
    hide Encode, Decode, PlanWan, Rewrite, UpdateAddrCsum, ChecksumValid, Congruent, WordSum, MarkMangled, SyntheticIpv6, ClientVip;
    var plan := PlanWan(p, maps);
    WanPlanIsFlow(p, maps);
    var (src, dst) := (SyntheticIpv6(plan.domainId), ClientVip(plan.clientId));
    TwoUpdates(CsumField(p, plan.off), SrcAddr(p, plan.off), src, DstAddr(p, plan.off), dst);
    MarkMangledIsIdentity(UpdateAddrCsum(UpdateAddrCsum(CsumField(p, plan.off), SrcAddr(p, plan.off), src), DstAddr(p, plan.off), dst));
    RewriteKeepsValidity(p, plan.off, src, dst, WanField(p, plan.off, src, dst, None));
  }

  /** With double NAT the field ends up where it would be had the packet come in with
      the WAN address as its destination. */
  lemma CompensatedResidue(p: seq<Byte>, off: nat, src: Address, dst: Address, wan: Address)
    requires IsFlow(p, off)
    ensures Congruent(WanField(p, off, src, dst, Some(wan)) + WordSum(src) + WordSum(dst),
                      CsumField(p, off) + WordSum(SrcAddr(p, off)) + WordSum(wan))
  {
    hide UpdateAddrCsum, Congruent, WordSum, MarkMangled, CsumField, SrcAddr, DstAddr;
    var (oldSrc, oldDst) := (SrcAddr(p, off), DstAddr(p, off));
    var f := UpdateAddrCsum(UpdateAddrCsum(CsumField(p, off), oldSrc, src), oldDst, dst);
    var g := UpdateAddrCsum(f, wan, oldDst);
    MarkMangledIsIdentity(g);
    TwoUpdates(CsumField(p, off), oldSrc, src, oldDst, dst);
    UpdateResidue(f, wan, oldDst);
    var q := Quotient(f + WordSum(src) + WordSum(dst), CsumField(p, off) + WordSum(oldSrc) + WordSum(oldDst));
    var r := Quotient(g + WordSum(oldDst), f + WordSum(wan));
    FromQuotient(g + WordSum(src) + WordSum(dst), CsumField(p, off) + WordSum(oldSrc) + WordSum(wan), q + r);
  }

  /** Replacing the destination does not disturb anything else. */
  lemma RestoredReads(p: seq<Byte>, off: nat, a: Address)
    requires IsFlow(p, off)
    ensures var x := Splice(p, off + 24, a);
            && IsFlow(x, off) && NextHeader(x, off) == NextHeader(p, off)
            && SrcAddr(x, off) == SrcAddr(p, off) && DstAddr(x, off) == a
            && SrcPort(x, off) == SrcPort(p, off) && DstPort(x, off) == DstPort(p, off)
            && CsumField(x, off) == CsumField(p, off)
            && Ipv6Offset(x) == Ipv6Offset(p)
  {
    hide Word, Be16;
    var x := Splice(p, off + 24, a);
    assert forall i :: 0 <= i < |p| && !(off + 24 <= i < off + 40) ==> x[i] == p[i];
  }

  /** And a rewrite of both addresses does not see it. */
  lemma RewriteOfRestored(p: seq<Byte>, off: nat, a: Address, src: Address, dst: Address, field: nat)
    requires IsFlow(p, off) && field <= ONES
    ensures var x := Splice(p, off + 24, a);
            IsFlow(x, off) && Rewrite(x, off, src, dst, field) == Rewrite(p, off, src, dst, field)
  {
    hide Word, WordBytes, Be16;
    RestoredReads(p, off, a);
    var x := Splice(p, off + 24, a);
    var c := CsumOffset(off, NextHeader(p, off));
    assert x[..off + 8] == p[..off + 8] && x[off + 40..c] == p[off + 40..c] && x[c + 2..] == p[c + 2..];
  }

  /** Dev mode, every delivered packet: the checksum is valid afterwards if and only if it
      was valid for the packet with the WAN address as its destination. */
  lemma CompensationExact(p: seq<Byte>, maps: Maps)
    requires PlanWan(p, maps).Deliver? && Wan(maps).Some?
    ensures var off := PlanWan(p, maps).off;
            && IsFlow(p, off)
            && (ChecksumValid(TcIngressWan(p, maps).packet, off) <==> ChecksumValid(Splice(p, off + 24, Wan(maps).value), off))
  {
    hide Encode, Decode, PlanWan, Rewrite, ChecksumValid, Congruent, WordSum, WanField, SyntheticIpv6, ClientVip, Splice;
    var plan := PlanWan(p, maps);
    var (off, wan) := (plan.off, Wan(maps).value);
    WanPlanIsFlow(p, maps);
    RestoredReads(p, off, wan);
    var (src, dst) := (SyntheticIpv6(plan.domainId), ClientVip(plan.clientId));
    CompensatedResidue(p, off, src, dst, wan);
    RewriteOfRestored(p, off, wan, src, dst, WanField(p, off, src, dst, Some(wan)));
    RewriteKeepsValidity(Splice(p, off + 24, wan), off, src, dst, WanField(p, off, src, dst, Some(wan)));
  }

  lemma SpliceBack(p: seq<Byte>, a: Address)
    requires IsFlow(p, ETH_LEN)
    ensures Splice(Splice(p, ETH_LEN + 24, a), ETH_LEN + 24, DstAddr(p, ETH_LEN)) == p
  {
  }

  /** Hence a tracked reply: `xdp_wan` then `tc_ingress_wan` keep the checksum of the
      packet that arrived for the WAN address, valid or not. */
  lemma TrackedReplyKeepsChecksum(p: seq<Byte>, maps: Maps, track: Track)
    requires IsTrackedReply(p, maps, track) && !LooksLikeRawIpv6(p)
    requires PlanWan(XdpWan(p, maps, track).packet, maps).Deliver?
    ensures ChecksumValid(TcIngressWan(XdpWan(p, maps, track).packet, maps).packet, ETH_LEN)
            <==> ChecksumValid(p, ETH_LEN)
  {
    hide Encode, Decode, PlanWan, TcIngressWan, Rewrite, ChecksumValid, Splice;
    var x := XdpWan(p, maps, track).packet;
    RestoredReads(p, ETH_LEN, track[InboundTrackKey(p)]);
    WanPlanIsFlow(x, maps);
    CompensationExact(x, maps);
    SpliceBack(p, track[InboundTrackKey(p)]);
  }

  /** What a new destination does to a valid checksum. */
  lemma RedirectedValid(p: seq<Byte>, off: nat, a: Address)
    requires ChecksumValid(p, off)
    ensures ChecksumValid(Splice(p, off + 24, a), off) <==> Congruent(WordSum(a), WordSum(DstAddr(p, off)))
  {
    hide Congruent, WordSum, Fold, Segment, PayloadLen, Be16;
    var x := Splice(p, off + 24, a);
    assert forall i :: 0 <= i < |p| && !(off + 24 <= i < off + 40) ==> x[i] == p[i];
    assert SrcAddr(x, off) == SrcAddr(p, off) && DstAddr(x, off) == a;
    SameSegment(p, x, off);
    CoveredSumPositive(x, off);
    FoldIsOnes(CoveredSum(p, off));
    FoldIsOnes(CoveredSum(x, off));
    ShiftedResidue(CoveredSum(x, off), CoveredSum(p, off), WordSum(a), WordSum(DstAddr(p, off)), 0);
  }

  lemma SameSegment(p: seq<Byte>, x: seq<Byte>, off: nat)
    requires HasSegment(p, off) && |x| == |p|
    requires forall i :: 0 <= i < |p| && !(off + 24 <= i < off + 40) ==> x[i] == p[i]
    ensures HasSegment(x, off) && PayloadLen(x, off) == PayloadLen(p, off) && Segment(x, off) == Segment(p, off)
  {
    hide Word;
  }

  /** Hence a packet that is valid as it reaches `tc_ingress_wan`: it stays valid exactly
      when its destination sums to the same value as the WAN address, which a packet that
      `xdp_wan` did not rewrite has no reason to do. */
  lemma CompensationOfValid(p: seq<Byte>, maps: Maps)
    requires PlanWan(p, maps).Deliver? && Wan(maps).Some?
    requires ChecksumValid(p, PlanWan(p, maps).off)
    ensures var off := PlanWan(p, maps).off;
            ChecksumValid(TcIngressWan(p, maps).packet, off)
            <==> Congruent(WordSum(Wan(maps).value), WordSum(DstAddr(p, off)))
  {
    hide Encode, Decode, PlanWan, TcIngressWan, ChecksumValid, Congruent, WordSum, Splice, IsFlow;
    WanPlanIsFlow(p, maps);
    CompensationExact(p, maps);
    RedirectedValid(p, PlanWan(p, maps).off, Wan(maps).value);
  }

  lemma ShiftedResidue(m: nat, n: nat, a: nat, b: nat, k: int)
    requires m == n + a - b + 65535 * k && n % 65535 == 0
    ensures m % 65535 == 0 <==> Congruent(a, b)
  {
    hide Congruent;
    if m % 65535 == 0 {
      FromQuotient(a, b, m / 65535 - n / 65535 - k);
    }
    if Congruent(a, b) {
      var q := Quotient(a, b);
      assert m == 65535 * (n / 65535 + q + k);
    }
  }

  // -------------------------------------------------------------------------
  // Zero UDP checksums
  // -------------------------------------------------------------------------

  /** Section 8.1 of RFC 8200: a UDP datagram with a zero checksum field is discarded. */
  predicate Receivable(p: seq<Byte>, off: nat) {
    ChecksumValid(p, off) && (NextHeader(p, off) == PROTO_UDP ==> CsumField(p, off) != 0)
  }

  /** Everything the checksum of the translated packet covers, without the field. */
  function TranslatedRest(p: seq<Byte>, off: nat, src: Address, dst: Address): int
    requires HasSegment(p, off)
  {
    CoveredSum(p, off) - CsumField(p, off) - WordSum(SrcAddr(p, off)) - WordSum(DstAddr(p, off)) + WordSum(src) + WordSum(dst)
  }

  lemma FieldNeverOnes(field: nat, oldAddr: Address, newAddr: Address)
    requires field <= ONES
    ensures UpdateAddrCsum(field, oldAddr, newAddr) < ONES
  {
    hide Fold, WordSum, ComplementSum;
    FoldKeepsResidue(CsumDiff(oldAddr, newAddr) + (0xFFFF_FFFF - field));
  }

  /** `tc_ingress` keeps a datagram receivable exactly when the rest of the translated
      packet does not sum to zero: it stores a computed zero as zero, not as all ones. */
  lemma IngressReceivable(p: seq<Byte>, maps: Maps, track: Track, accept: bool)
    requires PlanIngress(p, maps).Translate? && ChecksumValid(p, PlanIngress(p, maps).off)
    ensures var plan := PlanIngress(p, maps);
            Receivable(TcIngress(p, maps, track, accept).packet, plan.off)
            <==> NextHeader(p, plan.off) != PROTO_UDP
                 || !Congruent(TranslatedRest(p, plan.off, FinalSrc(plan, maps), plan.origin), 0)
  {
    hide Encode, Decode, PlanIngress, Rewrite, UpdateAddrCsum, Congruent, WordSum, CoveredSum, HasSegment, Fold, HasPrefix, SYNTHETIC_PREFIX;
    var plan := PlanIngress(p, maps);
    var off := plan.off;
    PlanIsFlow(p, maps);
    IngressKeepsChecksum(p, maps, track, accept);
    var src := FinalSrc(plan, maps);
    var field := IngressField(p, off, src, plan.origin);
    var q := Rewrite(p, off, src, plan.origin, field);
    RewriteReadsBack(p, off, src, plan.origin, field);
    RewriteSum(p, off, src, plan.origin, field);
    FieldNeverOnes(UpdateAddrCsum(CsumField(p, off), SrcAddr(p, off), src), DstAddr(p, off), plan.origin);
    FoldIsOnes(CoveredSum(q, off));
    ZeroFieldIffRestIsZero(field, TranslatedRest(p, off, src, plan.origin), CoveredSum(q, off));
  }

  lemma ZeroFieldIffRestIsZero(field: nat, rest: int, total: nat)
    requires field < ONES && total == rest + field && total % 65535 == 0
    ensures field == 0 <==> Congruent(rest, 0)
  {
    hide Congruent;
    if field == 0 {
      FromQuotient(rest, 0, total / 65535);
    }
    if Congruent(rest, 0) {
      var q := Quotient(rest, 0);
      assert field == 65535 * (total / 65535 - q);
    }
  }

  /** The address with another last word. */
  function WithLastWord(a: Address, w: nat): Address
    requires w <= ONES
  {
    a[..14] + WordBytes(w)
  }

  lemma LastWordSum(a: Address, w: nat)
    requires w <= ONES
    ensures WordSum(WithLastWord(a, w)) == WordSum(a[..14]) + w
  {
    hide Word, WordBytes;
    WordSumSplit(a[..14], WordBytes(w));
    WordOfBytes(w);
  }

  lemma PlanWithOrigin(p: seq<Byte>, maps: Maps, origin: Address)
    requires PlanIngress(p, maps).Translate?
    ensures var plan := PlanIngress(p, maps);
            var other := maps.(natMap := maps.natMap[DomainId(plan.domainId) := origin]);
            PlanIngress(p, other) == plan.(origin := origin) && FinalSrc(PlanIngress(p, other), other) == FinalSrc(plan, maps)
  {
    hide Encode, Decode, HasPrefix, IsZero, Be16, DomainIdFromIpv6, ClientIdFromIpv6;
  }

  /** No valid UDP packet of a client is safe: there is an origin that differs from the
      mapped one in its last word only, whose translation no receiver accepts. */
  lemma UnreceivableOrigin(p: seq<Byte>, maps: Maps, track: Track, accept: bool) returns (origin: Address)
    requires PlanIngress(p, maps).Translate? && ChecksumValid(p, PlanIngress(p, maps).off)
    requires NextHeader(p, PlanIngress(p, maps).off) == PROTO_UDP
    ensures origin[..14] == PlanIngress(p, maps).origin[..14]
    ensures var plan := PlanIngress(p, maps);
            !Receivable(TcIngress(p, maps.(natMap := maps.natMap[DomainId(plan.domainId) := origin]), track, accept).packet, plan.off)
  {
    hide Encode, Decode, PlanIngress, TcIngress, Rewrite, Congruent, WordSum, CoveredSum, HasSegment, Fold, Receivable,
      CsumField, SrcAddr, DstAddr, FinalSrc, WordBytes;
    var plan := PlanIngress(p, maps);
    PlanIsFlow(p, maps);
    var src := FinalSrc(plan, maps);
    LastWordSum(plan.origin, 0);
    var rest := TranslatedRest(p, plan.off, src, WithLastWord(plan.origin, 0));
    var w := (-rest) % 65535;
    origin := WithLastWord(plan.origin, w);
    LastWordSum(plan.origin, w);
    PlanWithOrigin(p, maps, origin);
    FromQuotient(TranslatedRest(p, plan.off, src, origin), 0, -((-rest) / 65535));
    IngressReceivable(p, maps.(natMap := maps.natMap[DomainId(plan.domainId) := origin]), track, accept);
  }

  lemma WanPlanWithWan(p: seq<Byte>, maps: Maps, wan: Option<Address>)
    ensures PlanWan(p, maps.(devWan := wan)) == PlanWan(p, maps)
  {
    hide Decode, HasPrefix, IsZero, Be16;
    assert UsableKey(maps.(devWan := wan)) == UsableKey(maps);
  }

  lemma OneOfTwoDiffers(m: nat, n: nat)
    ensures !Congruent(m + 1, n) || !Congruent(m + 2, n)
  {
  }

  lemma LastWordNotZero(a: Address, w: nat)
    requires 0 < w <= ONES
    ensures WithLastWord(a, w) != ZERO_ADDRESS
  {
    hide Word, WordBytes;
    WordOfBytes(w);
    WordOfZero();
    assert WithLastWord(a, w)[14] == WordBytes(w)[0] && WithLastWord(a, w)[15] == WordBytes(w)[1];
  }

  lemma WordOfZero()
    ensures Word(0, 0) == 0
  {
  }

  /** And for every valid packet that arrives with its proxy-source destination in place
      and every address there is a WAN address that differs from it in its last word only
      and under which the compensation breaks the checksum. */
  lemma BreakingWan(p: seq<Byte>, maps: Maps, near: Address) returns (wan: Address)
    requires PlanWan(p, maps).Deliver? && ChecksumValid(p, PlanWan(p, maps).off)
    ensures wan != ZERO_ADDRESS && wan[..14] == near[..14]
    ensures !ChecksumValid(TcIngressWan(p, maps.(devWan := Some(wan))).packet, PlanWan(p, maps).off)
  {
    hide Encode, Decode, PlanWan, TcIngressWan, ChecksumValid, Congruent, WordSum, WordBytes;
    WanPlanIsFlow(p, maps);
    var sum := WordSum(DstAddr(p, PlanWan(p, maps).off));
    OneOfTwoDiffers(WordSum(near[..14]), sum);
    var w := if Congruent(WordSum(near[..14]) + 1, sum) then 2 else 1;
    wan := WithLastWord(near, w);
    LastWordSum(near, w);
    LastWordNotZero(near, w);
    WanPlanWithWan(p, maps, Some(wan));
    CompensationOfValid(p, maps.(devWan := Some(wan)));
  }
}
