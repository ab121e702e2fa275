/** The eBPF programs of ebpf/src/main.rs as they run: packet bytes are read and
    overwritten in place, checks happen in the order of the source. Each method is
    proved equal to the function of the same name in `Datapath`. */
module Programs {
  import opened Wrappers
  import opened Words
  import opened Addresses
  import opened Checksum
  import opened ProxySource
  import opened Packets
  import D = Datapath

  // -------------------------------------------------------------------------
  // In-place helpers
  // -------------------------------------------------------------------------

  /** Read the sixteen bytes of an address. */
  method LoadAddress(packet: array<Byte>, at: nat) returns (a: Address)
    requires at + 16 <= packet.Length
    ensures a == packet[..][at..at + 16]
  {
    assert |packet[at..at + 16]| == 16;
    a := packet[at..at + 16];
  }

  /** The store loops over the sixteen bytes of an address. */
  method StoreAddress(packet: array<Byte>, at: nat, a: Address)
    requires at + 16 <= packet.Length
    modifies packet
    ensures packet[..] == Splice(old(packet[..]), at, a)
  {
    for i := 0 to 16
      invariant forall j :: 0 <= j < i ==> packet[at + j] == a[j]
      invariant forall j :: 0 <= j < packet.Length && !(at <= j < at + i) ==> packet[j] == old(packet[j])
    {
      packet[at + i] := a[i];
    }
    assert packet[at..at + 16] == a;
    assert packet[..] == packet[..at] + packet[at..at + 16] + packet[at + 16..];
  }

  method UpdateCsum(packet: array<Byte>, at: nat, oldAddr: Address, newAddr: Address)
    requires at + 2 <= packet.Length
    modifies packet
    ensures packet[..] == Splice(old(packet[..]), at,
                                 WordBytes(UpdateAddrCsum(old(Word(packet[at], packet[at + 1])), oldAddr, newAddr)))
  {
    hide WordBytes, UpdateAddrCsum;
    var b := WordBytes(UpdateAddrCsum(Word(packet[at], packet[at + 1]), oldAddr, newAddr));
    packet[at], packet[at + 1] := b[0], b[1];
  }

  /** The final `l4_csum_replace` call. */
  method MarkCsum(packet: array<Byte>, at: nat)
    requires at + 2 <= packet.Length
    modifies packet
    ensures packet[..] == Splice(old(packet[..]), at, WordBytes(MarkMangled(old(Word(packet[at], packet[at + 1])))))
  {
    hide WordBytes, MarkMangled;
    var field := Word(packet[at], packet[at + 1]);
    MarkMangledIsIdentity(field);
    var b := WordBytes(MarkMangled(field));
    packet[at], packet[at + 1] := b[0], b[1];
  }

  lemma StoresMakeRewrite(p: seq<Byte>, off: nat, src: Address, dst: Address, field: nat)
    requires IsFlow(p, off) && field <= ONES
    ensures var c := CsumOffset(off, NextHeader(p, off));
            && Splice(Splice(Splice(p, off + 24, dst), off + 8, src), c, WordBytes(field)) == Rewrite(p, off, src, dst, field)
            && Splice(Splice(Splice(p, off + 8, src), off + 24, dst), c, WordBytes(field)) == Rewrite(p, off, src, dst, field)
  {
    hide WordBytes;
    var c := CsumOffset(off, NextHeader(p, off));
    var q := Splice(Splice(p, off + 24, dst), off + 8, src);
    assert q == p[..off + 8] + src + dst + p[off + 40..];
    assert q == Splice(Splice(p, off + 8, src), off + 24, dst);
    assert q[..c] == p[..off + 8] + src + dst + p[off + 40..c];
  }

  lemma SpliceTwice(p: seq<Byte>, at: nat, f: nat, g: nat)
    requires at + 2 <= |p| && f <= ONES && g <= ONES
    ensures Splice(Splice(p, at, WordBytes(f)), at, WordBytes(g)) == Splice(p, at, WordBytes(g))
    ensures var q := Splice(p, at, WordBytes(f)); Word(q[at], q[at + 1]) == f
  {
    hide Word, WordBytes;
    var q := Splice(p, at, WordBytes(f));
    assert q[at..at + 2] == WordBytes(f);
    assert q[at] == q[at..at + 2][0] && q[at + 1] == q[at..at + 2][1];
    WordOfBytes(f);
  }

  lemma StoresKeepCsum(p: seq<Byte>, off: nat, a: Address, b: Address)
    requires IsFlow(p, off)
    ensures var c := CsumOffset(off, NextHeader(p, off));
            && Splice(Splice(p, off + 24, a), off + 8, b)[c] == Splice(Splice(p, off + 8, b), off + 24, a)[c] == p[c]
            && Splice(Splice(p, off + 24, a), off + 8, b)[c + 1] == Splice(Splice(p, off + 8, b), off + 24, a)[c + 1] == p[c + 1]
  {
  }

  /** The pair of `update_addr_csum` calls that follows every rewrite. */
  method UpdateCsumTwice(packet: array<Byte>, at: nat, src: Address, newSrc: Address, dst: Address, newDst: Address)
    requires at + 2 <= packet.Length
    modifies packet
    ensures packet[..] == Splice(old(packet[..]), at,
              WordBytes(UpdateAddrCsum(UpdateAddrCsum(old(Word(packet[at], packet[at + 1])), src, newSrc), dst, newDst)))
  {
    hide UpdateAddrCsum, WordBytes, Word, Splice;
    ghost var p := packet[..];
    ghost var f := UpdateAddrCsum(Word(p[at], p[at + 1]), src, newSrc);
    UpdateCsum(packet, at, src, newSrc);
    SpliceTwice(p, at, f, UpdateAddrCsum(f, dst, newDst));
    UpdateCsum(packet, at, dst, newDst);
  }

  /** The stores and checksum updates of `try_tc_ingress`. */
  method RewriteOutbound(packet: array<Byte>, off: nat, newSrc: Address, newDst: Address)
    requires IsFlow(packet[..], off)
    modifies packet
    ensures packet[..] == Rewrite(old(packet[..]), off, newSrc, newDst, D.IngressField(old(packet[..]), off, newSrc, newDst))
  {
    hide UpdateAddrCsum, Rewrite, WordBytes, Word, Splice;
    ghost var p := packet[..];
    var src := LoadAddress(packet, off + 8);
    var dst := LoadAddress(packet, off + 24);
    assert src == SrcAddr(p, off) && dst == DstAddr(p, off);
    var c := CsumOffset(off, packet[off + 6]);
    StoreAddress(packet, off + 24, newDst);
    StoreAddress(packet, off + 8, newSrc);
    StoresKeepCsum(p, off, newDst, newSrc);
    UpdateCsumTwice(packet, c, src, newSrc, dst, newDst);
    StoresMakeRewrite(p, off, newSrc, newDst, D.IngressField(p, off, newSrc, newDst));
  }

  method FindIpv6Offset(packet: array<Byte>) returns (r: Option<nat>)
    ensures r == Ipv6Offset(packet[..])
  {
    if packet.Length == 0 {
      return None;
    }
    if packet[0] >> 4 == 6 {
      return Some(0);
    }
    if packet.Length < ETH_LEN {
      return None;
    }
    if packet[12] != 0x86 || packet[13] != 0xdd {
      return None;
    }
    r := Some(ETH_LEN);
  }

  // -------------------------------------------------------------------------
  // The programs
  // -------------------------------------------------------------------------

  class Kernel {
    var natMap: NatMap
    var activeKey: Option<Key>
    var xfrmIfindex: bv32
    var devWan: Option<Address>
    var replyTrack: D.Track

    constructor (natMap: NatMap, activeKey: Option<Key>, xfrmIfindex: bv32, devWan: Option<Address>)
      ensures Maps() == D.Maps(natMap, activeKey, xfrmIfindex, devWan) && replyTrack == map[]
    {
      this.natMap, this.activeKey, this.xfrmIfindex, this.devWan := natMap, activeKey, xfrmIfindex, devWan;
      this.replyTrack := map[];
    }

    function Maps(): D.Maps
      reads this
    {
      D.Maps(natMap, activeKey, xfrmIfindex, devWan)
    }

    /** The checks of `try_tc_ingress`, up to the point where the first byte is stored. */
    method PlanIngress(packet: array<Byte>) returns (plan: D.IngressPlan)
      ensures plan == D.PlanIngress(packet[..], Maps())
    {
      hide Encode, Be16, IsZero, HasPrefix, Ipv6Offset, DomainIdFromIpv6, ClientIdFromIpv6;
      ghost var p := packet[..];
      var offset := FindIpv6Offset(packet);
      if offset.None? {
        return D.PassOn;
      }
      var off := offset.value;
      if off + IPV6_LEN > packet.Length {
        return D.PassOn;
      }
      var proto := packet[off + 6];
      if proto != PROTO_TCP && proto != PROTO_UDP {
        return D.PassOn;
      }
      var dst := LoadAddress(packet, off + 24);
      assert dst == DstAddr(p, off);
      if !HasPrefix(dst, SYNTHETIC_PREFIX) {
        return D.PassOn;
      }
      var domainId := DomainIdFromIpv6(dst);
      if DomainId(domainId) !in natMap {
        return D.Drop;
      }
      var src := LoadAddress(packet, off + 8);
      assert src == SrcAddr(p, off);
      var clientId := ClientIdFromIpv6(src);
      var base := off + IPV6_LEN;
      if base + TransportLen(proto) > packet.Length {
        return D.PassOn;
      }
      var ctx := Ctx(Be16(packet[base], packet[base + 1]), Be16(packet[base + 2], packet[base + 3]), proto);
      if activeKey.None? {
        return D.Drop;
      }
      var zero := ComputeIsZero(activeKey.value);
      if zero {
        return D.Drop;
      }
      var encoded := Encode(clientId, domainId, ctx, activeKey.value);
      if encoded.None? {
        return D.Drop;
      }
      plan := D.Translate(off, clientId, domainId, ctx, natMap[DomainId(domainId)], encoded.value);
    }

    /** `try_tc_ingress` */
    method TcIngress(packet: array<Byte>, accept: bool) returns (action: D.Action)
      modifies packet, this`replyTrack
      ensures D.Ingress(packet[..], action, replyTrack)
           == D.TcIngress(old(packet[..]), old(Maps()), old(replyTrack), accept)
    {
      hide Encode, Be16, Rewrite, D.IngressField, D.PlanIngress, D.ToBe, D.TrackInsert;
      ghost var p := packet[..];
      var plan := PlanIngress(packet);
      if plan.PassOn? {
        return D.TcOk;
      }
      if plan.Drop? {
        return D.TcShot;
      }
      D.PlanIsFlow(p, Maps());
      var finalSrc := plan.proxySrc;
      if devWan.Some? && devWan.value != D.ZERO_ADDRESS {
        var key := D.TrackKey(plan.origin, D.ToBe(plan.ctx.dstPort), D.ToBe(plan.ctx.srcPort), plan.ctx.proto);
        replyTrack := D.TrackInsert(replyTrack, key, plan.proxySrc, accept);
        finalSrc := devWan.value;
      }
      RewriteOutbound(packet, plan.off, finalSrc, plan.origin);
      action := D.TcOk;
    }

    /** `try_xdp_wan` */
    method XdpWan(packet: array<Byte>) returns (action: D.XdpAction)
      modifies packet
      ensures D.Xdp(packet[..], action) == D.XdpWan(old(packet[..]), Maps(), replyTrack)
    {
      hide Be16, D.ToBe, HasPrefix;
      ghost var p := packet[..];
      if packet.Length < ETH_LEN || packet[12] != 0x86 || packet[13] != 0xdd {
        return D.XdpPass;
      }
      if packet.Length < ETH_LEN + IPV6_LEN {
        return D.XdpPass;
      }
      var proto := packet[ETH_LEN + 6];
      if proto == PROTO_ICMPV6 {
        return D.XdpPass;
      }
      var dst := LoadAddress(packet, ETH_LEN + 24);
      assert dst == DstAddr(p, ETH_LEN);
      if HasPrefix(dst, PROXY_SRC_PREFIX) {
        return D.XdpPass;
      }
      if devWan.Some? && devWan.value != D.ZERO_ADDRESS && dst == devWan.value {
        var base := ETH_LEN + IPV6_LEN;
        if !IsTransport(proto) || base + TransportLen(proto) > packet.Length {
          return D.XdpPass;
        }
        var src := LoadAddress(packet, ETH_LEN + 8);
        assert src == SrcAddr(p, ETH_LEN);
        var srcPort := Be16(packet[base], packet[base + 1]);
        var dstPort := Be16(packet[base + 2], packet[base + 3]);
        var key := D.TrackKey(src, D.ToBe(srcPort), D.ToBe(dstPort), proto);
        assert key == D.InboundTrackKey(p);
        if key in replyTrack {
          StoreAddress(packet, ETH_LEN + 24, replyTrack[key]);
        }
        return D.XdpPass;
      }
      action := D.XdpDrop;
    }

    /** The checks of `try_tc_ingress_wan`, up to the point where the first byte is stored. */
    method PlanWan(packet: array<Byte>) returns (plan: D.WanPlan)
      ensures plan == D.PlanWan(packet[..], Maps())
    {
      hide Decode, Be16, IsZero, HasPrefix, Ipv6Offset;
      ghost var p := packet[..];
      var offset := FindIpv6Offset(packet);
      if offset.None? {
        return D.PassWan;
      }
      var off := offset.value;
      if off + IPV6_LEN > packet.Length {
        return D.PassWan;
      }
      var proto := packet[off + 6];
      if proto != PROTO_TCP && proto != PROTO_UDP {
        return D.PassWan;
      }
      var dst := LoadAddress(packet, off + 24);
      assert dst == DstAddr(p, off);
      if !HasPrefix(dst, PROXY_SRC_PREFIX) {
        return D.PassWan;
      }
      var base := off + IPV6_LEN;
      if base + TransportLen(proto) > packet.Length {
        return D.PassWan;
      }
      var replySrcPort := Be16(packet[base], packet[base + 1]);
      var replyDstPort := Be16(packet[base + 2], packet[base + 3]);
      var ctx := Ctx(replyDstPort, replySrcPort, proto);
      if activeKey.None? {
        return D.DropWan;
      }
      var zero := ComputeIsZero(activeKey.value);
      if zero {
        return D.DropWan;
      }
      var ids := Decode(dst, ctx, activeKey.value);
      if ids.None? {
        return D.DropWan;
      }
      var (clientId, domainId) := ids.value;
      var src := LoadAddress(packet, off + 8);
      assert src == SrcAddr(p, off);
      if DomainId(domainId) !in natMap || src != natMap[DomainId(domainId)] {
        return D.DropWan;
      }
      plan := D.Deliver(off, clientId, domainId);
    }

    /** `try_tc_ingress_wan` */
    method TcIngressWan(packet: array<Byte>) returns (action: D.Action)
      modifies packet
      ensures D.WanResult(packet[..], action) == D.TcIngressWan(old(packet[..]), Maps())
    {
      hide Decode, UpdateAddrCsum, MarkMangled, Be16, Rewrite, WordBytes, Word, Splice, D.PlanWan, SyntheticIpv6, ClientVip;
      ghost var p := packet[..];
      var plan := PlanWan(packet);
      if plan.PassWan? {
        return D.TcOk;
      }
      if plan.DropWan? {
        return D.TcShot;
      }
      D.WanPlanIsFlow(p, Maps());
      var off := plan.off;
      var src := LoadAddress(packet, off + 8);
      var dst := LoadAddress(packet, off + 24);
      assert src == SrcAddr(p, off) && dst == DstAddr(p, off);
      var synthetic, client := SyntheticIpv6(plan.domainId), ClientVip(plan.clientId);
      var c := CsumOffset(off, packet[off + 6]);

      StoreAddress(packet, off + 8, synthetic);
      StoreAddress(packet, off + 24, client);

      ghost var stored := packet[..];
      StoresKeepCsum(p, off, client, synthetic);
      UpdateCsumTwice(packet, c, src, synthetic, dst, client);
      ghost var g := D.IngressField(p, off, synthetic, client);
      if devWan.Some? && devWan.value != D.ZERO_ADDRESS {
        ghost var h := UpdateAddrCsum(g, devWan.value, dst);
        SpliceTwice(stored, c, g, h);
        UpdateCsum(packet, c, devWan.value, dst);
        g := h;
      }
      MarkMangledIsIdentity(g);
      SpliceTwice(stored, c, g, g);
      MarkCsum(packet, c);
      StoresMakeRewrite(p, off, synthetic, client, g);
      action := if xfrmIfindex != 0 then D.TcRedirect(xfrmIfindex) else D.TcShot;
    }
  }
}
