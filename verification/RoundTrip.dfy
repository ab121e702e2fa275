/** The stateless NAT66 law: the reply to a translated packet finds its way back. */
module RoundTrip {
  import opened Wrappers
  import opened Words
  import opened Addresses
  import opened ProxySource
  import opened Packets
  import opened Datapath

  /** `r` is an Ethernet frame with a reply to the packet `q`: addresses and ports are
      mirrored, everything else (lengths, flags, payload, checksum) is arbitrary. The
      first MAC byte must not look like an IPv6 version nibble. */
  ghost predicate MirrorsReply(q: seq<Byte>, off: nat, r: seq<Byte>) {
    && IsFlow(q, off)
    && IsEthernetIpv6(r) && !LooksLikeRawIpv6(r) && IsFlow(r, ETH_LEN)
    && NextHeader(r, ETH_LEN) == NextHeader(q, off)
    && SrcAddr(r, ETH_LEN) == DstAddr(q, off) && DstAddr(r, ETH_LEN) == SrcAddr(q, off)
    && SrcPort(r, ETH_LEN) == DstPort(q, off) && DstPort(r, ETH_LEN) == SrcPort(q, off)
  }

  /** Every packet has such a reply. */
  lemma MirroredReply(q: seq<Byte>, off: nat) returns (r: seq<Byte>)
    requires IsFlow(q, off)
    ensures MirrorsReply(q, off, r)
  {
    hide Be16;
    var ethernet: seq<Byte> := [0, 0, 0, 0, 0, 0, 0, 0, 0, 0, 0, 0, 0x86, 0xdd];
    var fixed: seq<Byte> := [0x60, 0, 0, 0, 0, 0, NextHeader(q, off), 64];
    var ports: seq<Byte> := [q[off + 42], q[off + 43], q[off + 40], q[off + 41]];
    var rest: seq<Byte> := seq(16, _ => 0);
    r := ethernet + fixed + DstAddr(q, off) + SrcAddr(q, off) + ports + rest;
    assert r[0] == 0 && r[12] == 0x86 && r[13] == 0xdd && r[20] == fixed[6];
    assert r[22..38] == DstAddr(q, off) && r[38..54] == SrcAddr(q, off);
    assert r[54] == ports[0] && r[55] == ports[1] && r[56] == ports[2] && r[57] == ports[3];
  }

  /** The maps when the reply arrives: NAT_MAP may have changed, the key has not. */
  ghost predicate SameKey(maps: Maps, later: Maps) {
    later.activeKey == maps.activeKey
  }

  lemma ReplyCtxMirrors(q: seq<Byte>, off: nat, r: seq<Byte>)
    requires MirrorsReply(q, off, r)
    ensures ReplyCtx(r, ETH_LEN) == FlowCtx(q, off)
  {
    hide Be16;
  }

  /** A stateless reply passes `xdp_wan` untouched, and `tc_ingress_wan` decodes from it
      exactly the client and the domain of the request. It is delivered if and only if
      NAT_MAP still maps the domain to the origin. */
  lemma ReplyIsDecoded(p: seq<Byte>, maps: Maps, track: Track, accept: bool, r: seq<Byte>, later: Maps)
    requires PlanIngress(p, maps).Translate? && Wan(maps).None?
    requires MirrorsReply(TcIngress(p, maps, track, accept).packet, PlanIngress(p, maps).off, r)
    requires SameKey(maps, later)
    ensures XdpWan(r, later, track) == Xdp(r, XdpPass)
    ensures var plan := PlanIngress(p, maps);
            PlanWan(r, later)
            == (if DomainId(plan.domainId) in later.natMap && later.natMap[DomainId(plan.domainId)] == plan.origin
                then Deliver(ETH_LEN, plan.clientId, plan.domainId) else DropWan)
  {
    hide Encode, Decode, PlanIngress, Rewrite, IngressField, IsZero, HasPrefix, Be16, ToBe;
    var plan := PlanIngress(p, maps);
    var q := TcIngress(p, maps, track, accept).packet;
    PlanIsFlow(p, maps);
    IngressEffect(p, maps, track, accept);
    ReplyCtxMirrors(q, plan.off, r);
    EncodeThenDecode(plan.proxySrc, plan.clientId, plan.domainId, plan.ctx, UsableKey(maps).value);
  }

  /** NAT66 round trip. For every packet `p` that `tc_ingress` translates and every
      mirrored reply `r` that arrives while NAT_MAP maps the domain to the same origin,
      the reply is redirected into the tunnel from the synthetic address of the domain
      to the VIP of the client; and these are the original addresses exactly when the
      request was sent from a VIP to a canonical synthetic address. */
  lemma NatRoundTrip(p: seq<Byte>, maps: Maps, track: Track, accept: bool, r: seq<Byte>, later: Maps)
    requires PlanIngress(p, maps).Translate? && Wan(maps).None?
    requires MirrorsReply(TcIngress(p, maps, track, accept).packet, PlanIngress(p, maps).off, r)
    requires SameKey(maps, later) && later.xfrmIfindex != 0
    requires DomainId(PlanIngress(p, maps).domainId) in later.natMap
    requires later.natMap[DomainId(PlanIngress(p, maps).domainId)] == PlanIngress(p, maps).origin
    ensures XdpWan(r, later, track) == Xdp(r, XdpPass)
    ensures var plan := PlanIngress(p, maps);
            var out := TcIngressWan(r, later);
            && out.action == TcRedirect(later.xfrmIfindex)
            && IsFlow(out.packet, ETH_LEN) && IsFlow(p, plan.off)
            && SrcAddr(out.packet, ETH_LEN) == SyntheticIpv6(DomainIdFromIpv6(DstAddr(p, plan.off)))
            && DstAddr(out.packet, ETH_LEN) == ClientVip(ClientIdFromIpv6(SrcAddr(p, plan.off)))
            && (SrcAddr(out.packet, ETH_LEN) == DstAddr(p, plan.off)
                <==> DstAddr(p, plan.off)[8..] == [0, 0, 0, 0, 0, 0, 0, 1])
            && (DstAddr(out.packet, ETH_LEN) == SrcAddr(p, plan.off)
                <==> SrcAddr(p, plan.off)[..12] == [0xfd, 0x00, 0xab, 0xcd, 0, 0, 0, 1, 0, 0, 0, 0])
            && SrcPort(out.packet, ETH_LEN) == DstPort(p, plan.off)
            && DstPort(out.packet, ETH_LEN) == SrcPort(p, plan.off)
  {
    hide Encode, Decode, PlanIngress, PlanWan, XdpWan, Rewrite, IngressField, WanField, SyntheticIpv6, ClientVip,
      DomainIdFromIpv6, ClientIdFromIpv6, Be16, HasPrefix;
    var plan := PlanIngress(p, maps);
    PlanIsFlow(p, maps);
    IngressEffect(p, maps, track, accept);
    ReplyIsDecoded(p, maps, track, accept, r, later);
    WanEffect(r, later);
    SyntheticRange(DstAddr(p, plan.off));
    VipRange(SrcAddr(p, plan.off));
    PrefixIsSlice(DstAddr(p, plan.off), SYNTHETIC_PREFIX);
  }

  /** Which packets `tc_ingress` translates: those of a client VIP with a 24-bit id to
      the canonical address of a mapped 24-bit domain, given a usable key, always are. */
  lemma ClientPacketsAreTranslated(p: seq<Byte>, off: nat, c: bv32, d: bv32, maps: Maps)
    requires Ipv6Offset(p) == Some(off) && IsFlow(p, off)
    requires SrcAddr(p, off) == ClientVip(c) && DstAddr(p, off) == SyntheticIpv6(d)
    requires DomainId(d) in maps.natMap && UsableKey(maps).Some?
    ensures PlanIngress(p, maps).Translate? <==> c <= CLIENT_ID_MAX && d <= DOMAIN_ID_MAX
    ensures PlanIngress(p, maps).Translate? ==>
              && PlanIngress(p, maps).off == off && PlanIngress(p, maps).clientId == c
              && PlanIngress(p, maps).domainId == d && PlanIngress(p, maps).origin == maps.natMap[DomainId(d)]
    ensures !PlanIngress(p, maps).Translate? ==> PlanIngress(p, maps).Drop?
  {
    hide SyntheticIpv6, ClientVip, DomainIdFromIpv6, ClientIdFromIpv6, HasPrefix, KeyCtxMix, Tag32, Scramble, Assemble, Payload, IsZero, Be16;
    DomainIdOfSynthetic(d);
    ClientIdOfVip(c);
  }

  /** The full circle for an ordinary client packet: what comes back is addressed from
      where the client sent to, to the client itself. */
  lemma ClientRoundTrip(p: seq<Byte>, off: nat, c: bv32, d: bv32, maps: Maps, track: Track, accept: bool,
                        r: seq<Byte>, later: Maps)
    requires Ipv6Offset(p) == Some(off) && IsFlow(p, off)
    requires SrcAddr(p, off) == ClientVip(c) && DstAddr(p, off) == SyntheticIpv6(d)
    requires c <= CLIENT_ID_MAX && d <= DOMAIN_ID_MAX && DomainId(d) in maps.natMap
    requires UsableKey(maps).Some? && Wan(maps).None?
    requires MirrorsReply(TcIngress(p, maps, track, accept).packet, off, r)
    requires SameKey(maps, later) && later.xfrmIfindex != 0 && DomainId(d) in later.natMap && later.natMap[DomainId(d)] == maps.natMap[DomainId(d)]
    ensures var out := TcIngressWan(r, later);
            && XdpWan(r, later, track) == Xdp(r, XdpPass)
            && out.action == TcRedirect(later.xfrmIfindex)
            && IsFlow(out.packet, ETH_LEN)
            && SrcAddr(out.packet, ETH_LEN) == DstAddr(p, off)
            && DstAddr(out.packet, ETH_LEN) == SrcAddr(p, off)
  {
    hide Encode, Decode, PlanIngress, PlanWan, XdpWan, TcIngress, TcIngressWan, SyntheticIpv6, ClientVip,
      DomainIdFromIpv6, ClientIdFromIpv6, Be16, IsZero, MirrorsReply;
    ClientPacketsAreTranslated(p, off, c, d, maps);
    NatRoundTrip(p, maps, track, accept, r, later);
    DomainIdOfSynthetic(d);
    ClientIdOfVip(c);
  }
}
