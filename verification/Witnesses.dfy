/** Inputs for the properties that fail: a datagram that no receiver accepts once it is
    translated, a valid reply that the compensation breaks, and a run in which dev mode
    delivers a reply to the wrong client. Each is built for all clients, domains and ports. */
module Witnesses {
  import opened Wrappers
  import opened Words
  import opened Addresses
  import opened Checksum
  import opened ProxySource
  import opened Packets
  import opened Datapath
  import opened ChecksumLaws
  import opened RoundTrip
  import opened DevMode
  import opened Datagrams

  /** A client with a 24-bit id, a mapped 24-bit domain and a key. */
  ghost predicate InService(c: bv32, d: bv32, maps: Maps) {
    c <= CLIENT_ID_MAX && d <= DOMAIN_ID_MAX && DomainId(d) in maps.natMap && UsableKey(maps).Some?
  }

  function Ports(sport: bv16, dport: bv16): (b: seq<Byte>)
    ensures |b| == 4
  {
    PortBytes(sport) + PortBytes(dport)
  }

  /** The valid datagram that client `c` sends to domain `d` with one payload word. */
  function Request(c: bv32, d: bv32, sport: bv16, dport: bv16, word: nat): seq<Byte>
    requires word <= ONES
  {
    ValidDatagram([], ClientVip(c), SyntheticIpv6(d), Ports(sport, dport), word)
  }

  lemma RequestReads(c: bv32, d: bv32, sport: bv16, dport: bv16, word: nat)
    requires word <= ONES
    ensures var p := Request(c, d, sport, dport, word);
            && Ipv6Offset(p) == Some(0) && IsFlow(p, 0) && NextHeader(p, 0) == PROTO_UDP
            && SrcAddr(p, 0) == ClientVip(c) && DstAddr(p, 0) == SyntheticIpv6(d)
            && FlowCtx(p, 0) == Ctx(sport, dport, PROTO_UDP)
  {
    hide ClientVip, SyntheticIpv6, Datagram, RestSum, SentField, Udp, Be16, PortBytes;
    var ports := Ports(sport, dport);
    DatagramReads([], ClientVip(c), SyntheticIpv6(d), ports, SentField(RestSum(ClientVip(c), SyntheticIpv6(d), ports, word)), word);
    PortOfBytes(sport);
    PortOfBytes(dport);
  }

  /** Every request is received as valid, and translated. */
  lemma RequestIsTranslated(c: bv32, d: bv32, sport: bv16, dport: bv16, word: nat, maps: Maps)
    requires word <= ONES && InService(c, d, maps)
    ensures var p := Request(c, d, sport, dport, word);
            var plan := PlanIngress(p, maps);
            && Receivable(p, 0) && ChecksumValid(p, 0)
            && plan.Translate? && plan.off == 0 && plan.clientId == c && plan.domainId == d
            && plan.origin == maps.natMap[DomainId(d)] && plan.ctx == Ctx(sport, dport, PROTO_UDP)
            && Encode(c, d, plan.ctx, UsableKey(maps).value) == Some(plan.proxySrc)
  {
    hide ClientVip, SyntheticIpv6, ValidDatagram, PlanIngress, Encode, ChecksumValid, Ports, FlowCtx, IsFlow, Ipv6Offset, SrcAddr, DstAddr;
    var p := Request(c, d, sport, dport, word);
    RequestReads(c, d, sport, dport, word);
    ValidDatagramIsReceivable([], ClientVip(c), SyntheticIpv6(d), Ports(sport, dport), word);
    ClientPacketsAreTranslated(p, 0, c, d, maps);
    PlanIsFlow(p, maps);
  }

  // -------------------------------------------------------------------------
  // Zero UDP checksums
  // -------------------------------------------------------------------------

  lemma RequestRest(c: bv32, d: bv32, sport: bv16, dport: bv16, word: nat, src: Address, dst: Address)
    requires word <= ONES
    ensures var p := Request(c, d, sport, dport, word);
            HasSegment(p, 0) && TranslatedRest(p, 0, src, dst) == RestSum(src, dst, Ports(sport, dport), word)
  {
    hide ClientVip, SyntheticIpv6, Datagram, SentField, Udp, WordSum, CoveredSum, HasSegment, Segment, CsumField, IsFlow,
      Ports, Be16, Ipv6Offset, SrcPort, DstPort, PayloadLen;
    var (a, b, ports) := (ClientVip(c), SyntheticIpv6(d), Ports(sport, dport));
    var field := SentField(RestSum(a, b, ports, word));
    DatagramReads([], a, b, ports, field, word);
    DatagramSum([], a, b, ports, field, word);
  }

  /** For every client, domain, pair of ports and configuration there is a payload word with
      which the client's valid datagram is translated into one that no receiver accepts. */
  lemma UnreceivableRequest(c: bv32, d: bv32, sport: bv16, dport: bv16, maps: Maps, track: Track, accept: bool)
    returns (word: nat)
    requires InService(c, d, maps)
    ensures word <= ONES
    ensures var p := Request(c, d, sport, dport, word);
            && Receivable(p, 0) && PlanIngress(p, maps).Translate? && PlanIngress(p, maps).off == 0
            && !Receivable(TcIngress(p, maps, track, accept).packet, 0)
  {
    hide Request, ClientVip, SyntheticIpv6, PlanIngress, TcIngress, Encode, ChecksumValid, WordSum, Congruent, Ports,
      TranslatedRest, HasSegment, IsFlow;
    var ports := Ports(sport, dport);
    RequestIsTranslated(c, d, sport, dport, 0, maps);
    var src := FinalSrc(PlanIngress(Request(c, d, sport, dport, 0), maps), maps);
    var dst := maps.natMap[DomainId(d)];
    var rest: int := RestSum(src, dst, ports, 0);
    word := (-rest) % 65535;
    var p := Request(c, d, sport, dport, word);
    RequestIsTranslated(c, d, sport, dport, word, maps);
    RequestReads(c, d, sport, dport, word);
    RequestRest(c, d, sport, dport, word, src, dst);
    FromQuotient(RestSum(src, dst, ports, word), 0, -((-rest) / 65535));
    IngressReceivable(p, maps, track, accept);
  }

  // -------------------------------------------------------------------------
  // Checksum compensation
  // -------------------------------------------------------------------------

  /** For every client, domain, pair of ports and production configuration there is a valid
      mirrored reply to the client's request, and it is delivered. */
  lemma ValidReply(c: bv32, d: bv32, sport: bv16, dport: bv16, maps: Maps, track: Track, accept: bool) returns (r: seq<Byte>)
    requires InService(c, d, maps) && Wan(maps).None?
    ensures MirrorsReply(TcIngress(Request(c, d, sport, dport, 0), maps, track, accept).packet, 0, r)
    ensures Receivable(r, ETH_LEN) && ChecksumValid(r, ETH_LEN) && PlanWan(r, maps) == Deliver(ETH_LEN, c, d)
  {
    hide Request, PlanIngress, TcIngress, PlanWan, Encode, ChecksumValid, MirrorsReply, XdpWan;
    var p := Request(c, d, sport, dport, 0);
    RequestIsTranslated(c, d, sport, dport, 0, maps);
    RequestReads(c, d, sport, dport, 0);
    IngressEffect(p, maps, track, accept);
    r := ValidMirror(TcIngress(p, maps, track, accept).packet, 0);
    ReplyIsDecoded(p, maps, track, accept, r, maps);
  }

  /** And near every address there is a WAN address under which `tc_ingress_wan` delivers
      that valid reply with a wrong checksum. */
  lemma BrokenReply(c: bv32, d: bv32, sport: bv16, dport: bv16, maps: Maps, near: Address) returns (r: seq<Byte>, wan: Address)
    requires InService(c, d, maps) && Wan(maps).None?
    ensures wan != ZERO_ADDRESS && wan[..14] == near[..14]
    ensures Receivable(r, ETH_LEN) && PlanWan(r, maps.(devWan := Some(wan))) == Deliver(ETH_LEN, c, d)
    ensures !ChecksumValid(TcIngressWan(r, maps.(devWan := Some(wan))).packet, ETH_LEN)
  {
    hide Request, PlanWan, TcIngressWan, ChecksumValid, MirrorsReply, TcIngress;
    r := ValidReply(c, d, sport, dport, maps, map[], true);
    wan := BreakingWan(r, maps, near);
    WanPlanWithWan(r, maps, Some(wan));
  }

  // -------------------------------------------------------------------------
  // Two clients on one 4-tuple
  // -------------------------------------------------------------------------

  /** Two requests that share origin, ports and protocol. */
  function TwoRequests(c1: bv32, d1: bv32, c2: bv32, d2: bv32, sport: bv16, dport: bv16, natMap: NatMap): seq<Event> {
    [Event(Request(c1, d1, sport, dport, 0), natMap, true), Event(Request(c2, d2, sport, dport, 0), natMap, true)]
  }

  lemma WritesTaken(cfg: Maps, track: Track, e: Event)
    requires PlanIngress(e.packet, At(cfg, e.natMap)).Translate? && Wan(cfg).Some? && e.accept && |track| < MAX_TRACKED
    ensures Writes(cfg, track, e).Some?
  {
    hide PlanIngress, OutboundTrackKey;
  }

  lemma SmallTable(cfg: Maps, e: Event)
    ensures |TrackAfter(cfg, [e])| < MAX_TRACKED
  {
    hide PlanIngress, OutboundTrackKey, Rewrite, IngressField, FinalSrc, Wan;
    assert [e][..0] == [];
    assert TrackAfter(cfg, [e][..0]) == map[];
    var track := TrackAfter(cfg, [e]);
    assert track == TcIngress(e.packet, At(cfg, e.natMap), map[], e.accept).track;
    var plan := PlanIngress(e.packet, At(cfg, e.natMap));
    if plan.Translate? {
      var key := OutboundTrackKey(plan);
      assert track == map[] || track == map[key := plan.proxySrc];
      assert map[key := plan.proxySrc].Keys == {key};
    }
  }

  /** For every two clients of domains with one origin, every pair of ports and every dev-mode
      configuration: both send a datagram, the second takes over the 4-tuple, and the reply
      to the first is delivered to the second. In production it returns to the first. */
  lemma ReplyToWrongClient(cfg: Maps, natMap: NatMap, c1: bv32, d1: bv32, c2: bv32, d2: bv32, sport: bv16, dport: bv16)
    returns (dev: seq<Byte>, prod: seq<Byte>)
    requires InService(c1, d1, At(cfg, natMap)) && InService(c2, d2, At(cfg, natMap))
    requires natMap[DomainId(d1)] == natMap[DomainId(d2)]
    requires Wan(cfg).Some? && !HasPrefix(Wan(cfg).value, PROXY_SRC_PREFIX)
    ensures var (maps, p) := (At(cfg, natMap), Request(c1, d1, sport, dport, 0));
            && MirrorsReply(TcIngress(p, maps, map[], true).packet, 0, dev)
            && MirrorsReply(TcIngress(p, Production(maps), map[], true).packet, 0, prod)
    ensures DevOutcome(cfg, TwoRequests(c1, d1, c2, d2, sport, dport, natMap), dev, natMap) == Deliver(ETH_LEN, c2, d2)
    ensures ProductionOutcome(cfg, prod, natMap) == Deliver(ETH_LEN, c1, d1)
  {
    hide Request, PlanIngress, PlanWan, XdpWan, TcIngress, Encode, ChecksumValid, MirrorsReply, TrackAfter, HasPrefix, Receivable,
      IsFlow, Writes;
    var (maps, events) := (At(cfg, natMap), TwoRequests(c1, d1, c2, d2, sport, dport, natMap));
    var p := Request(c1, d1, sport, dport, 0);
    RequestIsTranslated(c1, d1, sport, dport, 0, maps);
    RequestIsTranslated(c2, d2, sport, dport, 0, maps);
    dev := ReplyTo(p, maps);
    PlanIgnoresDevMode(p, maps);
    prod := ReplyTo(p, Production(maps));
    assert events[..0] == [] && events[..1] == [events[0]];
    EmptyTrack(cfg);
    SmallTable(cfg, events[0]);
    WritesTaken(cfg, TrackAfter(cfg, events[..1]), events[1]);
    assert OwnsTuple(cfg, events, 1);
    ReplyGoesToLastWriter(cfg, events, 0, 1, dev, natMap);
    ReplyIsDecoded(p, Production(maps), map[], true, prod, Production(maps));
    ReplyPassesXdp(p, Production(maps), map[], true, prod, Production(maps));
  }

  lemma EmptyTrack(cfg: Maps)
    ensures TrackAfter(cfg, []) == map[]
  {
  }

  lemma ReplyTo(p: seq<Byte>, maps: Maps) returns (r: seq<Byte>)
    requires PlanIngress(p, maps).Translate?
    ensures MirrorsReply(TcIngress(p, maps, map[], true).packet, PlanIngress(p, maps).off, r)
  {
    hide PlanIngress, TcIngress, MirrorsReply;
    IngressEffect(p, maps, map[], true);
    r := MirroredReply(TcIngress(p, maps, map[], true).packet, PlanIngress(p, maps).off);
  }
}
