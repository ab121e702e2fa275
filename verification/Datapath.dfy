/** What the three eBPF programs of ebpf/src/main.rs compute, as functions of the
    packet and the maps, and the laws of each program on its own. */
module Datapath {
  import opened Wrappers
  import opened Words
  import opened Addresses
  import opened Checksum
  import opened ProxySource
  import opened Packets

  datatype Action = TcOk | TcShot | TcRedirect(ifindex: bv32)
  datatype XdpAction = XdpPass | XdpDrop

  /** The maps a program reads. `devWan` is `None` in a production build; a zero
      address there means that double NAT is switched off. */
  datatype Maps = Maps(natMap: NatMap, activeKey: Option<Key>, xfrmIfindex: bv32, devWan: Option<Address>)

  const ZERO_ADDRESS: Address := [0, 0, 0, 0, 0, 0, 0, 0, 0, 0, 0, 0, 0, 0, 0, 0]

  function UsableKey(maps: Maps): Option<Key> {
    if maps.activeKey.Some? && !IsZero(maps.activeKey.value) then maps.activeKey else None
  }

  function Wan(maps: Maps): Option<Address> {
    if maps.devWan.Some? && maps.devWan.value != ZERO_ADDRESS then maps.devWan else None
  }

  // -------------------------------------------------------------------------
  // Reply tracking (dev mode)
  // -------------------------------------------------------------------------

  /** Ports are in network byte order. */
  datatype TrackKey = TrackKey(originIpv6: Address, originPort: bv16, translatedPort: bv16, proto: Byte)

  type Track = map<TrackKey, Address>

  const MAX_TRACKED: nat := 65536

  /** `u16::to_be` on a little-endian machine. */
  function ToBe(x: bv16): bv16 {
    (x << 8) | (x >> 8)
  }

  lemma ToBeTwice(x: bv16)
    ensures ToBe(ToBe(x)) == x
  {
  }

  /** Whether an insert takes effect: a new key needs room, and the kernel may refuse. */
  predicate InsertTakes(track: Track, key: TrackKey, accept: bool) {
    accept && (key in track || |track| < MAX_TRACKED)
  }

  function TrackInsert(track: Track, key: TrackKey, proxySrc: Address, accept: bool): Track {
    if InsertTakes(track, key, accept) then track[key := proxySrc] else track
  }

  // -------------------------------------------------------------------------
  // tc_ingress
  // -------------------------------------------------------------------------

  datatype IngressPlan =
    | PassOn
    | Drop
    | Translate(off: nat, clientId: bv32, domainId: bv32, ctx: Ctx, origin: Address, proxySrc: Address)

  function FlowCtx(p: seq<Byte>, off: nat): Ctx
    requires IsFlow(p, off)
  {
    Ctx(SrcPort(p, off), DstPort(p, off), NextHeader(p, off))
  }

  function PlanIngress(p: seq<Byte>, maps: Maps): IngressPlan {
    match Ipv6Offset(p)
    case None => PassOn
    case Some(off) =>
      if off + IPV6_LEN > |p| || !IsTransport(NextHeader(p, off)) then PassOn
      else if !HasPrefix(DstAddr(p, off), SYNTHETIC_PREFIX) then PassOn
      else
        var domainId := DomainIdFromIpv6(DstAddr(p, off));
        if DomainId(domainId) !in maps.natMap then Drop
        else if !IsFlow(p, off) then PassOn
        else if UsableKey(maps).None? then Drop
        else
          var clientId := ClientIdFromIpv6(SrcAddr(p, off));
          var ctx := FlowCtx(p, off);
          match Encode(clientId, domainId, ctx, UsableKey(maps).value)
          case None => Drop
          case Some(proxySrc) => Translate(off, clientId, domainId, ctx, maps.natMap[DomainId(domainId)], proxySrc)
  }

  function OutboundTrackKey(plan: IngressPlan): TrackKey
    requires plan.Translate?
  {
    TrackKey(plan.origin, ToBe(plan.ctx.dstPort), ToBe(plan.ctx.srcPort), plan.ctx.proto)
  }

  /** The source address the packet leaves with. */
  function FinalSrc(plan: IngressPlan, maps: Maps): Address
    requires plan.Translate?
  {
    if Wan(maps).Some? then Wan(maps).value else plan.proxySrc
  }

  function IngressField(p: seq<Byte>, off: nat, src: Address, dst: Address): (f: nat)
    requires IsFlow(p, off)
    ensures f <= ONES
  {
    UpdateAddrCsum(UpdateAddrCsum(CsumField(p, off), SrcAddr(p, off), src), DstAddr(p, off), dst)
  }

  datatype Ingress = Ingress(packet: seq<Byte>, action: Action, track: Track)

  lemma PlanIsFlow(p: seq<Byte>, maps: Maps)
    requires PlanIngress(p, maps).Translate?
    ensures var plan := PlanIngress(p, maps);
            && Ipv6Offset(p) == Some(plan.off) && IsFlow(p, plan.off)
            && plan.clientId == ClientIdFromIpv6(SrcAddr(p, plan.off))
            && plan.domainId == DomainIdFromIpv6(DstAddr(p, plan.off))
            && DomainId(plan.domainId) in maps.natMap && plan.origin == maps.natMap[DomainId(plan.domainId)]
            && plan.ctx == FlowCtx(p, plan.off)
            && HasPrefix(DstAddr(p, plan.off), SYNTHETIC_PREFIX)
            && UsableKey(maps).Some?
            && Encode(plan.clientId, plan.domainId, plan.ctx, UsableKey(maps).value) == Some(plan.proxySrc)
  {
    hide Encode;
  }

  function TcIngress(p: seq<Byte>, maps: Maps, track: Track, accept: bool): Ingress {
    var plan := PlanIngress(p, maps);
    match plan
    case PassOn => Ingress(p, TcOk, track)
    case Drop => Ingress(p, TcShot, track)
    case Translate(off, _, _, _, origin, proxySrc) =>
      PlanIsFlow(p, maps);
      var src := FinalSrc(plan, maps);
      Ingress(Rewrite(p, off, src, origin, IngressField(p, off, src, origin)), TcOk,
              if Wan(maps).Some? then TrackInsert(track, OutboundTrackKey(plan), proxySrc, accept) else track)
  }

  // -------------------------------------------------------------------------
  // xdp_wan
  // -------------------------------------------------------------------------

  datatype Xdp = Xdp(packet: seq<Byte>, action: XdpAction)

  function InboundTrackKey(p: seq<Byte>): TrackKey
    requires IsFlow(p, ETH_LEN)
  {
    TrackKey(SrcAddr(p, ETH_LEN), ToBe(SrcPort(p, ETH_LEN)), ToBe(DstPort(p, ETH_LEN)), NextHeader(p, ETH_LEN))
  }

  /** A reply to the double-NAT address that belongs to a tracked flow. */
  predicate IsTrackedReply(p: seq<Byte>, maps: Maps, track: Track) {
    && IsEthernetIpv6(p) && IsFlow(p, ETH_LEN)
    && !HasPrefix(DstAddr(p, ETH_LEN), PROXY_SRC_PREFIX)
    && Wan(maps) == Some(DstAddr(p, ETH_LEN))
    && InboundTrackKey(p) in track
  }

  predicate IsDroppedByXdp(p: seq<Byte>, maps: Maps) {
    && IsEthernetIpv6(p) && ETH_LEN + IPV6_LEN <= |p|
    && NextHeader(p, ETH_LEN) != PROTO_ICMPV6
    && !HasPrefix(DstAddr(p, ETH_LEN), PROXY_SRC_PREFIX)
    && Wan(maps) != Some(DstAddr(p, ETH_LEN))
  }

  function XdpWan(p: seq<Byte>, maps: Maps, track: Track): Xdp {
    if IsTrackedReply(p, maps, track) then Xdp(Splice(p, ETH_LEN + 24, track[InboundTrackKey(p)]), XdpPass)
    else Xdp(p, if IsDroppedByXdp(p, maps) then XdpDrop else XdpPass)
  }

  // -------------------------------------------------------------------------
  // tc_ingress_wan
  // -------------------------------------------------------------------------

  datatype WanPlan =
    | PassWan
    | DropWan
    | Deliver(off: nat, clientId: bv32, domainId: bv32)

  /** The flow context of the request this packet replies to. */
  function ReplyCtx(p: seq<Byte>, off: nat): Ctx
    requires IsFlow(p, off)
  {
    Ctx(DstPort(p, off), SrcPort(p, off), NextHeader(p, off))
  }

  function DecodeWithActiveKey(a: Address, ctx: Ctx, maps: Maps): Option<(bv32, bv32)> {
    if UsableKey(maps).None? then None else Decode(a, ctx, UsableKey(maps).value)
  }

  function PlanWan(p: seq<Byte>, maps: Maps): WanPlan {
    match Ipv6Offset(p)
    case None => PassWan
    case Some(off) =>
      if off + IPV6_LEN > |p| || !IsTransport(NextHeader(p, off)) then PassWan
      else if !HasPrefix(DstAddr(p, off), PROXY_SRC_PREFIX) then PassWan
      else if !IsFlow(p, off) then PassWan
      else
        match DecodeWithActiveKey(DstAddr(p, off), ReplyCtx(p, off), maps)
        case None => DropWan
        case Some((clientId, domainId)) =>
          if DomainId(domainId) !in maps.natMap || SrcAddr(p, off) != maps.natMap[DomainId(domainId)] then DropWan
          else Deliver(off, clientId, domainId)
  }

  lemma WanPlanIsFlow(p: seq<Byte>, maps: Maps)
    requires PlanWan(p, maps).Deliver?
    ensures var plan := PlanWan(p, maps);
            && Ipv6Offset(p) == Some(plan.off) && IsFlow(p, plan.off)
            && HasPrefix(DstAddr(p, plan.off), PROXY_SRC_PREFIX)
            && UsableKey(maps).Some?
            && Decode(DstAddr(p, plan.off), ReplyCtx(p, plan.off), UsableKey(maps).value)
               == Some((plan.clientId, plan.domainId))
            && DomainId(plan.domainId) in maps.natMap && SrcAddr(p, plan.off) == maps.natMap[DomainId(plan.domainId)]
  {
    hide Decode;
  }

  /** The two address updates, the dev-mode compensation, and the final no-op. */
  function WanField(p: seq<Byte>, off: nat, src: Address, dst: Address, wan: Option<Address>): (f: nat)
    requires IsFlow(p, off)
    ensures f <= ONES
  {
    var field := UpdateAddrCsum(UpdateAddrCsum(CsumField(p, off), SrcAddr(p, off), src), DstAddr(p, off), dst);
    var compensated := if wan.Some? then UpdateAddrCsum(field, wan.value, DstAddr(p, off)) else field;
    MarkMangledIsIdentity(compensated);
    MarkMangled(compensated)
  }

  datatype WanResult = WanResult(packet: seq<Byte>, action: Action)

  function TcIngressWan(p: seq<Byte>, maps: Maps): WanResult {
    match PlanWan(p, maps)
    case PassWan => WanResult(p, TcOk)
    case DropWan => WanResult(p, TcShot)
    case Deliver(off, clientId, domainId) =>
      WanPlanIsFlow(p, maps);
      var (src, dst) := (SyntheticIpv6(domainId), ClientVip(clientId));
      WanResult(Rewrite(p, off, src, dst, WanField(p, off, src, dst, Wan(maps))),
                if maps.xfrmIfindex != 0 then TcRedirect(maps.xfrmIfindex) else TcShot)
  }

  // -------------------------------------------------------------------------
  // Laws of tc_ingress
  // -------------------------------------------------------------------------

  /** Either no byte changes, or only addresses and checksum do and the packet goes on. */
  lemma IngressAllOrNothing(p: seq<Byte>, maps: Maps, track: Track, accept: bool)
    ensures var r := TcIngress(p, maps, track, accept);
            || (r.packet == p && r.track == track && !PlanIngress(p, maps).Translate?)
            || (r.action == TcOk && Ipv6Offset(p).Some? && DiffersOnlyInRewrite(p, r.packet, Ipv6Offset(p).value))
  {
    hide Encode, Decode, PlanIngress, Rewrite, IngressField, DiffersOnlyInRewrite, IsFlow;
    var plan := PlanIngress(p, maps);
    if plan.Translate? {
      PlanIsFlow(p, maps);
      var src := FinalSrc(plan, maps);
      RewriteTouchesOnlyFields(p, plan.off, src, plan.origin, IngressField(p, plan.off, src, plan.origin));
    }
  }

  /** A TCP or UDP packet from client `c` to the synthetic address of the mapped domain
      `d`, with both ids in 24 bits, while a key is set. */
  ghost predicate IsRequest(p: seq<Byte>, off: nat, c: bv32, d: bv32, maps: Maps) {
    && Ipv6Offset(p) == Some(off) && IsFlow(p, off)
    && HasPrefix(DstAddr(p, off), SYNTHETIC_PREFIX)
    && c == ClientIdFromIpv6(SrcAddr(p, off)) && d == DomainIdFromIpv6(DstAddr(p, off))
    && DomainId(d) in maps.natMap && UsableKey(maps).Some?
    && c <= CLIENT_ID_MAX && d <= DOMAIN_ID_MAX
  }

  /** `tc_ingress` translates exactly the requests. */
  lemma IngressTranslatesExactlyRequests(p: seq<Byte>, off: nat, c: bv32, d: bv32, maps: Maps)
    ensures var plan := PlanIngress(p, maps);
            plan.Translate? && plan.off == off && plan.clientId == c && plan.domainId == d <==> IsRequest(p, off, c, d, maps)
  {
    hide DomainIdFromIpv6, ClientIdFromIpv6, HasPrefix, KeyCtxMix, Tag32, Scramble, Assemble, Payload, IsZero, Be16;
  }

  /** A translated packet leaves for the mapped origin with ports and framing kept. */
  lemma IngressEffect(p: seq<Byte>, maps: Maps, track: Track, accept: bool)
    requires PlanIngress(p, maps).Translate?
    ensures var plan := PlanIngress(p, maps);
            var q := TcIngress(p, maps, track, accept).packet;
            && IsFlow(q, plan.off) && Ipv6Offset(q) == Some(plan.off)
            && SrcAddr(q, plan.off) == FinalSrc(plan, maps)
            && DomainId(DomainIdFromIpv6(DstAddr(p, plan.off))) in maps.natMap
            && DstAddr(q, plan.off) == maps.natMap[DomainId(DomainIdFromIpv6(DstAddr(p, plan.off)))]
            && FlowCtx(q, plan.off) == plan.ctx == FlowCtx(p, plan.off)
  {
    hide Encode, Decode, PlanIngress, Rewrite, IngressField;
    var plan := PlanIngress(p, maps);
    PlanIsFlow(p, maps);
    var src := FinalSrc(plan, maps);
    var field := IngressField(p, plan.off, src, plan.origin);
    RewriteReadsBack(p, plan.off, src, plan.origin, field);
    RewriteKeepsFraming(p, plan.off, src, plan.origin, field);
  }

  lemma TwoUpdates(field: nat, src: Address, newSrc: Address, dst: Address, newDst: Address)
    requires field <= ONES
    ensures Congruent(UpdateAddrCsum(UpdateAddrCsum(field, src, newSrc), dst, newDst) + WordSum(newSrc) + WordSum(newDst),
                      field + WordSum(src) + WordSum(dst))
  {
    hide UpdateAddrCsum, WordSum, Congruent;
    var f := UpdateAddrCsum(field, src, newSrc);
    var g := UpdateAddrCsum(f, dst, newDst);
    UpdateResidue(field, src, newSrc);
    UpdateResidue(f, dst, newDst);
    var q := Quotient(f + WordSum(newSrc), field + WordSum(src));
    var r := Quotient(g + WordSum(newDst), f + WordSum(dst));
    FromQuotient(g + WordSum(newSrc) + WordSum(newDst), field + WordSum(src) + WordSum(dst), q + r);
  }

  /** The transport checksum is valid after the translation exactly when it was before. */
  lemma IngressKeepsChecksum(p: seq<Byte>, maps: Maps, track: Track, accept: bool)
    requires PlanIngress(p, maps).Translate?
    ensures var off := PlanIngress(p, maps).off;
            ChecksumValid(TcIngress(p, maps, track, accept).packet, off) <==> ChecksumValid(p, off)
  {
    hide Encode, Decode, PlanIngress, Rewrite, UpdateAddrCsum, ChecksumValid, Congruent, WordSum;
    var plan := PlanIngress(p, maps);
    PlanIsFlow(p, maps);
    var src := FinalSrc(plan, maps);
    TwoUpdates(CsumField(p, plan.off), SrcAddr(p, plan.off), src, DstAddr(p, plan.off), plan.origin);
    RewriteKeepsValidity(p, plan.off, src, plan.origin, IngressField(p, plan.off, src, plan.origin));
  }

  // -------------------------------------------------------------------------
  // Laws of tc_ingress_wan
  // -------------------------------------------------------------------------

  /** A packet that is passed on is byte-identical; otherwise only fields change. */
  lemma WanAllOrNothing(p: seq<Byte>, maps: Maps)
    ensures var r := TcIngressWan(p, maps);
            && (r.action == TcOk ==> r.packet == p)
            && (r.packet == p
                || (Ipv6Offset(p).Some? && DiffersOnlyInRewrite(p, r.packet, Ipv6Offset(p).value)))
  {
    hide Encode, Decode, PlanWan, Rewrite, WanField, DiffersOnlyInRewrite, IsFlow, SyntheticIpv6, ClientVip;
    var plan := PlanWan(p, maps);
    if plan.Deliver? {
      WanPlanIsFlow(p, maps);
      var (src, dst) := (SyntheticIpv6(plan.domainId), ClientVip(plan.clientId));
      RewriteTouchesOnlyFields(p, plan.off, src, dst, WanField(p, plan.off, src, dst, Wan(maps)));
    }
  }

  lemma WanEffect(p: seq<Byte>, maps: Maps)
    requires PlanWan(p, maps).Deliver?
    ensures var plan := PlanWan(p, maps);
            var q := TcIngressWan(p, maps).packet;
            && IsFlow(q, plan.off) && Ipv6Offset(q) == Some(plan.off)
            && SrcAddr(q, plan.off) == SyntheticIpv6(plan.domainId)
            && DstAddr(q, plan.off) == ClientVip(plan.clientId)
            && FlowCtx(q, plan.off) == FlowCtx(p, plan.off)
  {
    hide Encode, Decode, PlanWan, Rewrite, WanField, SyntheticIpv6, ClientVip;
    var plan := PlanWan(p, maps);
    WanPlanIsFlow(p, maps);
    var (src, dst) := (SyntheticIpv6(plan.domainId), ClientVip(plan.clientId));
    var field := WanField(p, plan.off, src, dst, Wan(maps));
    RewriteReadsBack(p, plan.off, src, dst, field);
    RewriteKeepsFraming(p, plan.off, src, dst, field);
  }

  /** The condition under which a reply is delivered to client `c` of domain `d`: its
      destination is the one address that encodes the pair for the mirrored flow. */
  ghost predicate IsGenuineReply(p: seq<Byte>, off: nat, c: bv32, d: bv32, maps: Maps) {
    && Ipv6Offset(p) == Some(off) && IsFlow(p, off)
    && UsableKey(maps).Some?
    && Encode(c, d, ReplyCtx(p, off), UsableKey(maps).value) == Some(DstAddr(p, off))
    && DomainId(d) in maps.natMap && maps.natMap[DomainId(d)] == SrcAddr(p, off)
  }

  /** Redirect soundness and completeness. */
  lemma WanDeliversExactlyGenuineReplies(p: seq<Byte>, off: nat, c: bv32, d: bv32, maps: Maps)
    ensures PlanWan(p, maps) == Deliver(off, c, d) <==> IsGenuineReply(p, off, c, d, maps)
  {
    hide Encode, Decode, HasPrefix;
    if PlanWan(p, maps) == Deliver(off, c, d) {
      WanPlanIsFlow(p, maps);
      ExactInverse(DstAddr(p, off), c, d, ReplyCtx(p, off), UsableKey(maps).value);
    }
    if IsGenuineReply(p, off, c, d, maps) {
      EncodeThenDecode(DstAddr(p, off), c, d, ReplyCtx(p, off), UsableKey(maps).value);
    }
  }

  lemma WanRedirectSoundness(p: seq<Byte>, maps: Maps)
    requires TcIngressWan(p, maps).action.TcRedirect?
    ensures var (plan, out) := (PlanWan(p, maps), TcIngressWan(p, maps));
            && out.action == TcRedirect(maps.xfrmIfindex) && maps.xfrmIfindex != 0
            && plan.Deliver? && IsGenuineReply(p, plan.off, plan.clientId, plan.domainId, maps)
            && IsFlow(out.packet, plan.off)
            && SrcAddr(out.packet, plan.off) == SyntheticIpv6(plan.domainId)
            && DstAddr(out.packet, plan.off) == ClientVip(plan.clientId)
  {
    hide Encode, Decode, PlanWan, IsGenuineReply, Rewrite, WanField, SyntheticIpv6, ClientVip;
    var plan := PlanWan(p, maps);
    WanEffect(p, maps);
    WanDeliversExactlyGenuineReplies(p, plan.off, plan.clientId, plan.domainId, maps);
  }
}
