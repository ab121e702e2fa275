/** What the three eBPF programs decide and which bytes they write, on the raw bytes of the
    packet: every offset, length, protocol number and prefix is a literal. */
module Verdicts {
  import opened Wrappers
  import opened Words
  import opened Addresses
  import opened ProxySource
  import opened Packets
  import opened Datapath

  /** Where the IPv6 header starts, if there is one. */
  ghost predicate HeaderAt(p: seq<Byte>, off: nat) {
    if |p| > 0 && 0x60 <= p[0] <= 0x6f then off == 0
    else off == 14 <= |p| && p[12] == 0x86 && p[13] == 0xdd
  }

  /** A whole IPv6 header in front of TCP or UDP. */
  ghost predicate IsTcpOrUdp(p: seq<Byte>, off: nat) {
    off + 40 <= |p| && (p[off + 6] == 6 || p[off + 6] == 17)
  }

  /** And the transport header is whole, too. */
  ghost predicate IsWhole(p: seq<Byte>, off: nat) {
    off + 40 <= |p| && ((p[off + 6] == 6 && off + 60 <= |p|) || (p[off + 6] == 17 && off + 48 <= |p|))
  }

  ghost predicate KeySet(maps: Maps) {
    maps.activeKey.Some?
    && exists i :: 0 <= i < 16 && (maps.activeKey.value.princeKey[i] != 0 || maps.activeKey.value.siphashKey[i] != 0)
  }

  ghost predicate WanSet(maps: Maps) {
    maps.devWan.Some? && exists i :: 0 <= i < 16 && maps.devWan.value[i] != 0
  }

  lemma HighNibbleIsSix(b: Byte)
    ensures b >> 4 == 6 <==> 0x60 <= b <= 0x6f
  {
  }

  lemma HeaderIsOffset(p: seq<Byte>, off: nat)
    ensures HeaderAt(p, off) <==> Ipv6Offset(p) == Some(off)
  {
    if |p| > 0 {
      HighNibbleIsSix(p[0]);
    }
  }

  lemma WholeIsFlow(p: seq<Byte>, off: nat)
    ensures IsWhole(p, off) <==> IsFlow(p, off)
    ensures IsWhole(p, off) ==> IsTcpOrUdp(p, off)
    ensures IsTcpOrUdp(p, off) <==> off + IPV6_LEN <= |p| && IsTransport(NextHeader(p, off))
  {
  }

  lemma KeyIsUsable(maps: Maps)
    ensures KeySet(maps) <==> UsableKey(maps).Some?
    ensures KeySet(maps) ==> UsableKey(maps) == maps.activeKey
  {
  }

  lemma WanIsSet(maps: Maps)
    ensures WanSet(maps) <==> Wan(maps).Some?
    ensures WanSet(maps) ==> Wan(maps) == maps.devWan
  {
    if maps.devWan.Some? && (forall i :: 0 <= i < 16 ==> maps.devWan.value[i] == 0) {
      assert maps.devWan.value == ZERO_ADDRESS;
    }
  }

  // -------------------------------------------------------------------------
  // Which bytes a rewrite writes
  // -------------------------------------------------------------------------

  /** Only the addresses and the checksum of a TCP segment, or of a UDP datagram, differ. */
  ghost predicate OnlyFieldsDiffer(p: seq<Byte>, q: seq<Byte>, off: nat) {
    && IsWhole(p, off) && |q| == |p|
    && (p[off + 6] == 6 ==>
          forall i :: 0 <= i < |p| && !(off + 8 <= i < off + 40) && !(off + 56 <= i < off + 58) ==> q[i] == p[i])
    && (p[off + 6] == 17 ==>
          forall i :: 0 <= i < |p| && !(off + 8 <= i < off + 40) && !(off + 46 <= i < off + 48) ==> q[i] == p[i])
  }

  lemma FieldsAreLiteral(p: seq<Byte>, q: seq<Byte>, off: nat)
    requires DiffersOnlyInRewrite(p, q, off)
    ensures OnlyFieldsDiffer(p, q, off)
  {
  }

  // -------------------------------------------------------------------------
  // tc_ingress
  // -------------------------------------------------------------------------

  /** Sent to the synthetic prefix. */
  ghost predicate ToSynthetic(p: seq<Byte>, off: nat) {
    IsTcpOrUdp(p, off) && p[off + 24..off + 28] == [0xfd, 0x00, 0xab, 0xcd]
  }

  ghost function TargetDomain(p: seq<Byte>, off: nat): bv32
    requires off + 40 <= |p|
  {
    Be32(p[off + 28..off + 32])
  }

  ghost function SendingClient(p: seq<Byte>, off: nat): bv32
    requires off + 40 <= |p|
  {
    Be32(p[off + 20..off + 24])
  }

  /** The packet cannot be encoded: no key, or an id of more than 24 bits. */
  ghost predicate CannotEncode(p: seq<Byte>, off: nat, maps: Maps)
    requires off + 40 <= |p|
  {
    !KeySet(maps) || SendingClient(p, off) > 0x00FF_FFFF || TargetDomain(p, off) > 0x00FF_FFFF
  }

  lemma SliceOfSlice(p: seq<Byte>, lo: nat, hi: nat, i: nat, j: nat)
    requires lo <= hi <= |p| && i <= j <= hi - lo
    ensures p[lo..hi][i..j] == p[lo + i..lo + j]
  {
    assert forall k :: 0 <= k < j - i ==> p[lo..hi][i..j][k] == p[lo + i..lo + j][k];
  }

  lemma IngressFields(p: seq<Byte>, off: nat)
    requires off + 40 <= |p|
    ensures HasPrefix(DstAddr(p, off), SYNTHETIC_PREFIX) <==> p[off + 24..off + 28] == [0xfd, 0x00, 0xab, 0xcd]
    ensures HasPrefix(DstAddr(p, off), PROXY_SRC_PREFIX) <==> p[off + 24..off + 28] == [0x20, 0x01, 0x0d, 0xb8]
    ensures DomainIdFromIpv6(DstAddr(p, off)) == TargetDomain(p, off)
    ensures ClientIdFromIpv6(SrcAddr(p, off)) == SendingClient(p, off)
  {
    hide Be32;
    SliceOfSlice(p, off + 24, off + 40, 4, 8);
    SliceOfSlice(p, off + 8, off + 24, 12, 16);
    var a := DstAddr(p, off);
    assert a[0] == p[off + 24] && a[1] == p[off + 25] && a[2] == p[off + 26] && a[3] == p[off + 27];
    var s := p[off + 24..off + 28];
    assert forall i :: 0 <= i < 4 ==> s[i] == p[off + 24 + i];
  }

  lemma EncodeSucceeds(c: bv32, d: bv32, ctx: Ctx, key: Key)
    ensures Encode(c, d, ctx, key).Some? <==> c <= 0x00FF_FFFF && d <= 0x00FF_FFFF
  {
    hide KeyCtxMix, Tag32, Scramble, Payload, Assemble;
  }

  lemma PlanVerdict(p: seq<Byte>, off: nat, maps: Maps)
    requires HeaderAt(p, off)
    ensures PlanIngress(p, maps).Drop? <==>
              ToSynthetic(p, off)
              && (DomainId(TargetDomain(p, off)) !in maps.natMap || (IsWhole(p, off) && CannotEncode(p, off, maps)))
    ensures PlanIngress(p, maps).Translate? <==>
              ToSynthetic(p, off) && DomainId(TargetDomain(p, off)) in maps.natMap && IsWhole(p, off)
              && !CannotEncode(p, off, maps)
  {
    hide Encode, HasPrefix, DomainIdFromIpv6, ClientIdFromIpv6, TargetDomain, SendingClient, IsFlow, IsWhole, UsableKey, KeySet,
      Ipv6Offset, SrcPort, DstPort, SrcAddr, DstAddr, HeaderAt;
    HeaderIsOffset(p, off);
    WholeIsFlow(p, off);
    KeyIsUsable(maps);
    if off + 40 <= |p| {
      IngressFields(p, off);
      if IsFlow(p, off) && UsableKey(maps).Some? {
        EncodeSucceeds(SendingClient(p, off), TargetDomain(p, off), FlowCtx(p, off), UsableKey(maps).value);
      }
    }
  }

  lemma IngressFollowsPlan(p: seq<Byte>, maps: Maps, track: Track, accept: bool)
    ensures var (r, plan) := (TcIngress(p, maps, track, accept), PlanIngress(p, maps));
            && r.action == (if plan.Drop? then TcShot else TcOk)
            && (!plan.Translate? ==> r.packet == p && r.track == track)
  {
    hide PlanIngress, Rewrite, IngressField, TrackInsert, Wan, FinalSrc, OutboundTrackKey;
  }

  /** The verdict of `tc_ingress`, for every packet with an IPv6 header: what is not for the
      synthetic prefix, or not whole, passes as it is; an unmapped domain, a missing key and
      an id of more than 24 bits are dropped as they are; the rest is translated. */
  lemma IngressVerdict(p: seq<Byte>, off: nat, maps: Maps, track: Track, accept: bool)
    requires HeaderAt(p, off)
    ensures var r := TcIngress(p, maps, track, accept);
            && (r.action == TcShot <==>
                  ToSynthetic(p, off)
                  && (DomainId(TargetDomain(p, off)) !in maps.natMap || (IsWhole(p, off) && CannotEncode(p, off, maps))))
            && (r.action == TcOk <==> r.action != TcShot)
            && (PlanIngress(p, maps).Translate? <==>
                  ToSynthetic(p, off) && DomainId(TargetDomain(p, off)) in maps.natMap && IsWhole(p, off)
                  && !CannotEncode(p, off, maps))
            && (!PlanIngress(p, maps).Translate? ==> r.packet == p && r.track == track)
  {
    hide PlanIngress, TcIngress, ToSynthetic, CannotEncode, TargetDomain, IsWhole, HeaderAt;
    PlanVerdict(p, off, maps);
    IngressFollowsPlan(p, maps, track, accept);
  }

  /** The bytes that a translated packet leaves with. */
  lemma IngressBytes(p: seq<Byte>, off: nat, maps: Maps, track: Track, accept: bool)
    requires HeaderAt(p, off) && PlanIngress(p, maps).Translate?
    ensures var q := TcIngress(p, maps, track, accept).packet;
            && OnlyFieldsDiffer(p, q, off) && KeySet(maps) && DomainId(TargetDomain(p, off)) in maps.natMap
            && q[off + 24..off + 40] == maps.natMap[DomainId(TargetDomain(p, off))]
            && (WanSet(maps) ==> q[off + 8..off + 24] == maps.devWan.value)
            && (!WanSet(maps) ==>
                  Some(q[off + 8..off + 24])
                  == Encode(SendingClient(p, off), TargetDomain(p, off),
                            Ctx(Be16(p[off + 40], p[off + 41]), Be16(p[off + 42], p[off + 43]), p[off + 6]), maps.activeKey.value))
  {
    hide Encode, PlanIngress, Rewrite, IngressField, Be16, Be32, UsableKey, KeySet, Wan, WanSet, Ipv6Offset, HasPrefix,
      DomainIdFromIpv6, ClientIdFromIpv6, TargetDomain, SendingClient, DiffersOnlyInRewrite, OnlyFieldsDiffer;
    var plan := PlanIngress(p, maps);
    var q := TcIngress(p, maps, track, accept).packet;
    HeaderIsOffset(p, off);
    PlanIsFlow(p, maps);
    KeyIsUsable(maps);
    WanIsSet(maps);
    IngressFields(p, off);
    IngressAllOrNothing(p, maps, track, accept);
    IngressEffect(p, maps, track, accept);
    RewriteTouchesOnlyFields(p, off, FinalSrc(plan, maps), plan.origin, IngressField(p, off, FinalSrc(plan, maps), plan.origin));
    FieldsAreLiteral(p, q, off);
  }

  /** Everything else passes as it is. */
  lemma IngressWithoutHeader(p: seq<Byte>, maps: Maps, track: Track, accept: bool)
    requires forall off :: !HeaderAt(p, off)
    ensures TcIngress(p, maps, track, accept) == Ingress(p, TcOk, track)
    ensures TcIngressWan(p, maps) == WanResult(p, TcOk)
  {
    HeaderIsOffset(p, 0);
    HeaderIsOffset(p, 14);
  }

  // -------------------------------------------------------------------------
  // xdp_wan
  // -------------------------------------------------------------------------

  /** The WAN filter: exactly the IPv6 frames that are neither ICMPv6 nor for a proxy
      source nor for the WAN address of dev mode are dropped, and they are not changed. */
  lemma XdpVerdict(p: seq<Byte>, maps: Maps, track: Track)
    ensures var r := XdpWan(p, maps, track);
            && (r.action == XdpDrop <==>
                  && 54 <= |p| && p[12..14] == [0x86, 0xdd] && p[20] != 58 && p[38..42] != [0x20, 0x01, 0x0d, 0xb8]
                  && !(WanSet(maps) && maps.devWan == Some(p[38..54])))
            && (r.action == XdpDrop ==> r.packet == p)
  {
    hide IsFlow, HasPrefix, InboundTrackKey, Wan, WanSet, Splice;
    WanIsSet(maps);
    if 54 <= |p| {
      IngressFields(p, 14);
      assert p[12..14][0] == p[12] && p[12..14][1] == p[13];
    }
  }

  /** A tracked reply: the key in bytes, and the sixteen bytes that are written. */
  lemma XdpBytes(p: seq<Byte>, maps: Maps, track: Track)
    requires p != XdpWan(p, maps, track).packet
    ensures var q := XdpWan(p, maps, track).packet;
            && IsWhole(p, 14) && |q| == |p| && (forall i :: 0 <= i < |p| && !(38 <= i < 54) ==> q[i] == p[i])
            && WanSet(maps) && maps.devWan == Some(p[38..54])
            && var key := TrackKey(p[22..38], Be16(p[55], p[54]), Be16(p[57], p[56]), p[20]);
               key in track && q[38..54] == track[key]
  {
    hide Be16, ToBe, HasPrefix, Wan, WanSet;
    WholeIsFlow(p, 14);
    WanIsSet(maps);
    ToBeSwaps(p[54], p[55]);
    ToBeSwaps(p[56], p[57]);
  }

  /** `u16::to_be` exchanges the two bytes. */
  lemma ToBeSwaps(hi: Byte, lo: Byte)
    ensures ToBe(Be16(hi, lo)) == Be16(lo, hi)
  {
  }

  /** The key that a translated packet writes, in bytes. */
  lemma TrackedKeyBytes(p: seq<Byte>, off: nat, maps: Maps)
    requires HeaderAt(p, off) && PlanIngress(p, maps).Translate?
    ensures IsWhole(p, off) && DomainId(TargetDomain(p, off)) in maps.natMap
    ensures OutboundTrackKey(PlanIngress(p, maps))
         == TrackKey(maps.natMap[DomainId(TargetDomain(p, off))], Be16(p[off + 43], p[off + 42]), Be16(p[off + 41], p[off + 40]),
                     p[off + 6])
  {
    hide Encode, PlanIngress, Be16, Be32, ToBe, HasPrefix, TargetDomain, DomainIdFromIpv6, ClientIdFromIpv6, Ipv6Offset, UsableKey;
    HeaderIsOffset(p, off);
    PlanIsFlow(p, maps);
    WholeIsFlow(p, off);
    IngressFields(p, off);
    ToBeSwaps(p[off + 40], p[off + 41]);
    ToBeSwaps(p[off + 42], p[off + 43]);
  }

  /** What `tc_ingress` does to REPLY_TRACK: in dev mode the encoding is stored under that
      key, unless the kernel refuses or a new key meets 65536 entries; else nothing. */
  lemma IngressTracks(p: seq<Byte>, off: nat, maps: Maps, track: Track, accept: bool)
    requires HeaderAt(p, off) && PlanIngress(p, maps).Translate?
    ensures IsWhole(p, off) && DomainId(TargetDomain(p, off)) in maps.natMap && KeySet(maps)
    ensures var key := TrackKey(maps.natMap[DomainId(TargetDomain(p, off))], Be16(p[off + 43], p[off + 42]),
                                Be16(p[off + 41], p[off + 40]), p[off + 6]);
            var proxySrc := Encode(SendingClient(p, off), TargetDomain(p, off),
                                   Ctx(Be16(p[off + 40], p[off + 41]), Be16(p[off + 42], p[off + 43]), p[off + 6]),
                                   maps.activeKey.value);
            && proxySrc.Some?
            && TcIngress(p, maps, track, accept).track
               == (if WanSet(maps) && accept && (key in track || |track| < 65536) then track[key := proxySrc.value] else track)
  {
    hide Encode, PlanIngress, Rewrite, IngressField, FinalSrc, Be16, Be32, Ipv6Offset, HasPrefix, UsableKey, KeySet, Wan, WanSet,
      TargetDomain, SendingClient, DomainIdFromIpv6, ClientIdFromIpv6, OutboundTrackKey;
    HeaderIsOffset(p, off);
    PlanIsFlow(p, maps);
    KeyIsUsable(maps);
    WanIsSet(maps);
    IngressFields(p, off);
    TrackedKeyBytes(p, off, maps);
  }

  // -------------------------------------------------------------------------
  // tc_ingress_wan
  // -------------------------------------------------------------------------

  /** A whole TCP or UDP packet to the proxy prefix. */
  ghost predicate ToProxySource(p: seq<Byte>, off: nat) {
    IsWhole(p, off) && p[off + 24..off + 28] == [0x20, 0x01, 0x0d, 0xb8]
  }

  /** Some client and domain are meant, for the mirrored flow, by the active key. */
  ghost predicate IsReplyToSomeone(p: seq<Byte>, off: nat, maps: Maps) {
    exists c, d :: IsGenuineReply(p, off, c, d, maps)
  }

  lemma DeliversSomeone(p: seq<Byte>, off: nat, maps: Maps)
    requires Ipv6Offset(p) == Some(off)
    ensures PlanWan(p, maps).Deliver? <==> IsReplyToSomeone(p, off, maps)
  {
    hide PlanWan, IsGenuineReply, Ipv6Offset, Decode;
    var plan := PlanWan(p, maps);
    if plan.Deliver? {
      WanPlanIsFlow(p, maps);
      WanDeliversExactlyGenuineReplies(p, off, plan.clientId, plan.domainId, maps);
    }
    if c, d :| IsGenuineReply(p, off, c, d, maps) {
      WanDeliversExactlyGenuineReplies(p, off, c, d, maps);
    }
  }

  /** The verdict of `tc_ingress_wan`, for every packet with an IPv6 header: what is not for
      the proxy prefix passes as it is; of the rest, what does not decode to a mapped domain
      of its sender is dropped as it is, and only that which does is redirected. */
  lemma WanVerdict(p: seq<Byte>, off: nat, maps: Maps)
    requires HeaderAt(p, off)
    ensures var r := TcIngressWan(p, maps);
            && (!ToProxySource(p, off) ==> r == WanResult(p, TcOk))
            && (ToProxySource(p, off) && !IsReplyToSomeone(p, off, maps) ==> r == WanResult(p, TcShot))
            && (ToProxySource(p, off) && IsReplyToSomeone(p, off, maps) ==>
                  && OnlyFieldsDiffer(p, r.packet, off)
                  && r.action == (if maps.xfrmIfindex == 0 then TcShot else TcRedirect(maps.xfrmIfindex)))
  {
    hide Decode, Encode, HasPrefix, IsFlow, IsWhole, Rewrite, WanField, SyntheticIpv6, ClientVip, IsReplyToSomeone, Ipv6Offset,
      UsableKey, SrcPort, DstPort, SrcAddr, DstAddr, DiffersOnlyInRewrite, OnlyFieldsDiffer, DecodeWithActiveKey;
    HeaderIsOffset(p, off);
    WholeIsFlow(p, off);
    DeliversSomeone(p, off, maps);
    if off + 40 <= |p| {
      IngressFields(p, off);
    }
    var plan := PlanWan(p, maps);
    if plan.Deliver? {
      WanPlanIsFlow(p, maps);
      var (src, dst) := (SyntheticIpv6(plan.domainId), ClientVip(plan.clientId));
      RewriteTouchesOnlyFields(p, off, src, dst, WanField(p, off, src, dst, Wan(maps)));
      FieldsAreLiteral(p, TcIngressWan(p, maps).packet, off);
    }
  }
}
