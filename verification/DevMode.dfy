/** Dev mode replaces the stateless reply path by a tracking table. Over every run of
    outbound packets this module characterises the table, and from it when a dev-mode
    reply is delivered like a stateless one. */
module DevMode {
  import opened Wrappers
  import opened Words
  import opened Addresses
  import opened ProxySource
  import opened Packets
  import opened Datapath
  import opened ChecksumLaws
  import opened RoundTrip

  /** One outbound packet, NAT_MAP when it is seen, and whether the kernel takes the
      insert. Replies do not write the table. */
  datatype Event = Event(packet: seq<Byte>, natMap: NatMap, accept: bool)

  function At(cfg: Maps, natMap: NatMap): Maps {
    cfg.(natMap := natMap)
  }

  /** REPLY_TRACK after a run that starts empty. */
  function TrackAfter(cfg: Maps, events: seq<Event>): Track {
    if |events| == 0 then map[]
    else
      var e := events[|events| - 1];
      TcIngress(e.packet, At(cfg, e.natMap), TrackAfter(cfg, events[..|events| - 1]), e.accept).track
  }

  /** The entry an event writes, if any. */
  function Writes(cfg: Maps, track: Track, e: Event): Option<(TrackKey, bv32, bv32)> {
    var plan := PlanIngress(e.packet, At(cfg, e.natMap));
    if plan.Translate? && Wan(cfg).Some? && InsertTakes(track, OutboundTrackKey(plan), e.accept)
    then Some((OutboundTrackKey(plan), plan.clientId, plan.domainId)) else None
  }

  /** The client and the domain of the last successful write to a key. */
  function LastWriter(cfg: Maps, events: seq<Event>, key: TrackKey): Option<(bv32, bv32)> {
    if |events| == 0 then None
    else
      var n := |events| - 1;
      var w := Writes(cfg, TrackAfter(cfg, events[..n]), events[n]);
      if w.Some? && w.value.0 == key then Some((w.value.1, w.value.2)) else LastWriter(cfg, events[..n], key)
  }

  /** The flow context a key describes, in the perspective of the client. */
  function KeyCtx(key: TrackKey): Ctx {
    Ctx(ToBe(key.translatedPort), ToBe(key.originPort), key.proto)
  }

  lemma KeyCtxOfOutbound(plan: IngressPlan)
    requires plan.Translate?
    ensures KeyCtx(OutboundTrackKey(plan)) == plan.ctx
  {
    hide ToBe;
    ToBeTwice(plan.ctx.srcPort);
    ToBeTwice(plan.ctx.dstPort);
  }

  /** One event, seen from one key: the table changes at most at the written key, which
      then holds the encoding of the writer under the flow context the key describes. */
  lemma TrackStep(cfg: Maps, track: Track, e: Event, key: TrackKey)
    ensures var w := Writes(cfg, track, e);
            var after := TcIngress(e.packet, At(cfg, e.natMap), track, e.accept).track;
            if w.Some? && w.value.0 == key then
              && key in after && UsableKey(cfg).Some?
              && Encode(w.value.1, w.value.2, KeyCtx(key), UsableKey(cfg).value) == Some(after[key])
            else (key in after <==> key in track) && (key in track ==> after[key] == track[key])
  {
    hide Encode, Decode, PlanIngress, Rewrite, IngressField, ToBe, IsZero, HasPrefix, Be16, DomainIdFromIpv6, ClientIdFromIpv6, KeyCtx;
    var plan := PlanIngress(e.packet, At(cfg, e.natMap));
    if plan.Translate? {
      PlanIsFlow(e.packet, At(cfg, e.natMap));
      KeyCtxOfOutbound(plan);
    }
  }

  lemma InsertBounded(track: Track, key: TrackKey, proxySrc: Address, accept: bool)
    requires |track| <= MAX_TRACKED
    ensures |TrackInsert(track, key, proxySrc, accept)| <= MAX_TRACKED
  {
    if key in track {
      assert track[key := proxySrc].Keys == track.Keys;
    } else {
      assert track[key := proxySrc].Keys == track.Keys + {key};
    }
  }

  /** The table never outgrows its capacity. */
  lemma {:induction false} TrackBounded(cfg: Maps, events: seq<Event>)
    ensures |TrackAfter(cfg, events)| <= 65536
  {
    hide Encode, PlanIngress, Rewrite, IngressField, ToBe, TrackInsert, Wan, OutboundTrackKey, FinalSrc;
    if |events| > 0 {
      var n := |events| - 1;
      var (e, before) := (events[n], TrackAfter(cfg, events[..n]));
      TrackBounded(cfg, events[..n]);
      var plan := PlanIngress(e.packet, At(cfg, e.natMap));
      if plan.Translate? {
        InsertBounded(before, OutboundTrackKey(plan), plan.proxySrc, e.accept);
      }
    }
  }

  /** Tracking-table invariant, in every reachable state: the table holds exactly the
      keys that were written, each with the encoding of the last writer under exactly
      the flow context the key describes. */
  lemma {:induction false} TrackInvariant(cfg: Maps, events: seq<Event>, key: TrackKey)
    ensures key in TrackAfter(cfg, events) <==> LastWriter(cfg, events, key).Some?
    ensures key in TrackAfter(cfg, events) ==>
              && UsableKey(cfg).Some?
              && var (c, d) := LastWriter(cfg, events, key).value;
                 Encode(c, d, KeyCtx(key), UsableKey(cfg).value) == Some(TrackAfter(cfg, events)[key])
  {
    hide Encode, TcIngress, Writes, UsableKey, KeyCtx;
    if |events| > 0 {
      var n := |events| - 1;
      TrackInvariant(cfg, events[..n], key);
      TrackStep(cfg, TrackAfter(cfg, events[..n]), events[n], key);
    }
  }

  lemma XdpHit(cfg: Maps, track: Track, r: seq<Byte>, natMap: NatMap)
    requires IsEthernetIpv6(r) && !LooksLikeRawIpv6(r) && IsFlow(r, ETH_LEN)
    requires Wan(cfg) == Some(DstAddr(r, ETH_LEN)) && !HasPrefix(DstAddr(r, ETH_LEN), PROXY_SRC_PREFIX)
    ensures var key := InboundTrackKey(r);
            var x := XdpWan(r, At(cfg, natMap), track);
            && x.action == XdpPass
            && (key !in track ==> x.packet == r)
            && (key in track ==>
                  && IsFlow(x.packet, ETH_LEN) && Ipv6Offset(x.packet) == Some(ETH_LEN)
                  && SrcAddr(x.packet, ETH_LEN) == SrcAddr(r, ETH_LEN)
                  && DstAddr(x.packet, ETH_LEN) == track[key]
                  && ReplyCtx(x.packet, ETH_LEN) == KeyCtx(key))
  {
    hide Splice, ToBe, HasPrefix, Be16, Rewrite, CsumField;
    var key := InboundTrackKey(r);
    ToBeTwice(SrcPort(r, ETH_LEN));
    ToBeTwice(DstPort(r, ETH_LEN));
    if key in track {
      RestoredReads(r, ETH_LEN, track[key]);
    }
  }

  /** What happens to any reply to the WAN address after any run: without a writer it
      is the server's own traffic and passes both programs unchanged; with a writer,
      decoding always succeeds and names the last one, and the reply is delivered to
      that client if and only if NAT_MAP maps that domain to the sender. */
  lemma DevReply(cfg: Maps, events: seq<Event>, r: seq<Byte>, natMap: NatMap)
    requires IsEthernetIpv6(r) && !LooksLikeRawIpv6(r) && IsFlow(r, ETH_LEN)
    requires Wan(cfg) == Some(DstAddr(r, ETH_LEN)) && !HasPrefix(DstAddr(r, ETH_LEN), PROXY_SRC_PREFIX)
    ensures var writer := LastWriter(cfg, events, InboundTrackKey(r));
            var x := XdpWan(r, At(cfg, natMap), TrackAfter(cfg, events));
            && x.action == XdpPass
            && (writer.None? ==> x.packet == r && PlanWan(r, At(cfg, natMap)) == PassWan)
            && (writer.Some? ==>
                  var (c, d) := writer.value;
                  PlanWan(x.packet, At(cfg, natMap))
                  == (if DomainId(d) in natMap && natMap[DomainId(d)] == SrcAddr(r, ETH_LEN) then Deliver(ETH_LEN, c, d) else DropWan))
  {
    hide Encode, Decode, XdpWan, TrackAfter, LastWriter, HasPrefix, InboundTrackKey, KeyCtx, Be16, IsZero;
    var key := InboundTrackKey(r);
    var track := TrackAfter(cfg, events);
    TrackInvariant(cfg, events, key);
    XdpHit(cfg, track, r, natMap);
    if key in track {
      var (c, d) := LastWriter(cfg, events, key).value;
      EncodeThenDecode(track[key], c, d, KeyCtx(key), UsableKey(cfg).value);
    }
  }

  // -------------------------------------------------------------------------
  // Dev mode against production
  // -------------------------------------------------------------------------

  function Production(maps: Maps): Maps {
    maps.(devWan := None)
  }

  lemma PlanIgnoresDevMode(p: seq<Byte>, maps: Maps)
    ensures PlanIngress(p, Production(maps)) == PlanIngress(p, maps)
    ensures PlanWan(p, Production(maps)) == PlanWan(p, maps)
  {
    hide Encode, Decode, HasPrefix, IsZero, Be16, DomainIdFromIpv6, ClientIdFromIpv6;
    assert UsableKey(Production(maps)) == UsableKey(maps);
  }

  lemma ReplyKeyMirrors(p: seq<Byte>, maps: Maps, track: Track, accept: bool, r: seq<Byte>)
    requires PlanIngress(p, maps).Translate? && Wan(maps).Some?
    requires MirrorsReply(TcIngress(p, maps, track, accept).packet, PlanIngress(p, maps).off, r)
    ensures InboundTrackKey(r) == OutboundTrackKey(PlanIngress(p, maps))
    ensures SrcAddr(r, ETH_LEN) == PlanIngress(p, maps).origin && DstAddr(r, ETH_LEN) == Wan(maps).value
  {
    hide Encode, Decode, PlanIngress, Rewrite, IngressField, TcIngress, ToBe, Be16, HasPrefix, DomainIdFromIpv6, ClientIdFromIpv6;
    PlanIsFlow(p, maps);
    IngressEffect(p, maps, track, accept);
  }

  /** The outcome of a reply: dropped, passed on, or delivered to a client as a domain. */
  function DevOutcome(cfg: Maps, events: seq<Event>, r: seq<Byte>, natMap: NatMap): WanPlan {
    PlanWan(XdpWan(r, At(cfg, natMap), TrackAfter(cfg, events)).packet, At(cfg, natMap))
  }

  function ProductionOutcome(cfg: Maps, r: seq<Byte>, natMap: NatMap): WanPlan {
    PlanWan(XdpWan(r, Production(At(cfg, natMap)), map[]).packet, Production(At(cfg, natMap)))
  }

  /** A packet `e` is sent at some point of a run. `dev` is any mirrored reply to what
      left in dev mode, `prod` any mirrored reply to what would have left in production.
      Whenever production delivers, dev mode delivers to the same client as the same
      domain if and only if `e`'s client and domain are the last writer of its 4-tuple;
      and when they are, dev mode also drops what production drops. */
  lemma DevAgreesIffLastWriter(cfg: Maps, events: seq<Event>, e: Event, track: Track, dev: seq<Byte>, prod: seq<Byte>,
                               natMap: NatMap)
    requires PlanIngress(e.packet, At(cfg, e.natMap)).Translate?
    requires Wan(cfg).Some? && !HasPrefix(Wan(cfg).value, PROXY_SRC_PREFIX)
    requires MirrorsReply(TcIngress(e.packet, At(cfg, e.natMap), track, e.accept).packet,
                          PlanIngress(e.packet, At(cfg, e.natMap)).off, dev)
    requires MirrorsReply(TcIngress(e.packet, Production(At(cfg, e.natMap)), track, e.accept).packet,
                          PlanIngress(e.packet, At(cfg, e.natMap)).off, prod)
    ensures var plan := PlanIngress(e.packet, At(cfg, e.natMap));
            var own := LastWriter(cfg, events, OutboundTrackKey(plan)) == Some((plan.clientId, plan.domainId));
            && (ProductionOutcome(cfg, prod, natMap).Deliver? ==>
                  (DevOutcome(cfg, events, dev, natMap) == ProductionOutcome(cfg, prod, natMap) <==> own))
            && (own ==> DevOutcome(cfg, events, dev, natMap) == ProductionOutcome(cfg, prod, natMap))
  {
    hide Encode, Decode, PlanIngress, PlanWan, XdpWan, TcIngress, TrackAfter, LastWriter, HasPrefix, InboundTrackKey,
      OutboundTrackKey, MirrorsReply, IsFlow, IsEthernetIpv6, LooksLikeRawIpv6, SrcAddr, DstAddr;
    var maps := At(cfg, e.natMap);
    var later := At(cfg, natMap);
    MirrorIsFrame(TcIngress(e.packet, maps, track, e.accept).packet, PlanIngress(e.packet, maps).off, dev);
    ReplyKeyMirrors(e.packet, maps, track, e.accept, dev);
    DevReply(cfg, events, dev, natMap);
    PlanIgnoresDevMode(e.packet, maps);
    ReplyIsDecoded(e.packet, Production(maps), track, e.accept, prod, Production(later));
    ReplyPassesXdp(e.packet, Production(maps), track, e.accept, prod, Production(later));
    var writer := LastWriter(cfg, events, InboundTrackKey(dev));
    if writer.Some? {
      assert writer == Some((writer.value.0, writer.value.1));
    }
  }

  lemma MirrorIsFrame(q: seq<Byte>, off: nat, r: seq<Byte>)
    requires MirrorsReply(q, off, r)
    ensures IsEthernetIpv6(r) && !LooksLikeRawIpv6(r) && IsFlow(r, ETH_LEN)
  {
  }

  lemma ReplyPassesXdp(p: seq<Byte>, maps: Maps, track: Track, accept: bool, r: seq<Byte>, later: Maps)
    requires PlanIngress(p, maps).Translate? && Wan(maps).None?
    requires MirrorsReply(TcIngress(p, maps, track, accept).packet, PlanIngress(p, maps).off, r)
    requires SameKey(maps, later)
    ensures XdpWan(r, later, map[]) == Xdp(r, XdpPass)
  {
    hide Encode, Decode, PlanIngress, TcIngress, PlanWan, Rewrite, ToBe, Be16, MirrorsReply, IsZero;
    ReplyIsDecoded(p, maps, track, accept, r, later);
  }

  /** No other flow of the run uses the 4-tuple of event `i`, in the sense that every
      translated packet with the same key is from the same client to the same domain. */
  ghost predicate OwnsTuple(cfg: Maps, events: seq<Event>, i: nat)
    requires i < |events| && PlanIngress(events[i].packet, At(cfg, events[i].natMap)).Translate?
  {
    var mine := PlanIngress(events[i].packet, At(cfg, events[i].natMap));
    forall j :: i < j < |events| ==>
      var other := PlanIngress(events[j].packet, At(cfg, events[j].natMap));
      other.Translate? && OutboundTrackKey(other) == OutboundTrackKey(mine)
      ==> other.clientId == mine.clientId && other.domainId == mine.domainId
  }

  lemma {:induction false} OwnerIsLastWriter(cfg: Maps, events: seq<Event>, i: nat)
    requires i < |events| && PlanIngress(events[i].packet, At(cfg, events[i].natMap)).Translate?
    requires Writes(cfg, TrackAfter(cfg, events[..i]), events[i]).Some?
    requires OwnsTuple(cfg, events, i)
    ensures var plan := PlanIngress(events[i].packet, At(cfg, events[i].natMap));
            LastWriter(cfg, events, OutboundTrackKey(plan)) == Some((plan.clientId, plan.domainId))
    decreases |events|
  {
    hide PlanIngress, TrackAfter, OutboundTrackKey, Wan, InsertTakes;
    var n := |events| - 1;
    var plan := PlanIngress(events[i].packet, At(cfg, events[i].natMap));
    if i < n {
      assert events[..n][..i] == events[..i];
      OwnerIsLastWriter(cfg, events[..n], i);
      assert LastWriter(cfg, events[..n], OutboundTrackKey(plan)) == Some((plan.clientId, plan.domainId));
    }
  }

  /** Where dev mode differs: for every run, if a later packet `j` takes the insert on the
      4-tuple of packet `i` and owns it from then on, every mirrored reply to packet `i`
      goes to the client of packet `j`, or is dropped when NAT_MAP does not map the domain
      of `j` to the sender. */
  lemma ReplyGoesToLastWriter(cfg: Maps, events: seq<Event>, i: nat, j: nat, dev: seq<Byte>, natMap: NatMap)
    requires i < j < |events| && Wan(cfg).Some? && !HasPrefix(Wan(cfg).value, PROXY_SRC_PREFIX)
    requires PlanIngress(events[i].packet, At(cfg, events[i].natMap)).Translate?
    requires PlanIngress(events[j].packet, At(cfg, events[j].natMap)).Translate?
    requires OutboundTrackKey(PlanIngress(events[i].packet, At(cfg, events[i].natMap)))
          == OutboundTrackKey(PlanIngress(events[j].packet, At(cfg, events[j].natMap)))
    requires Writes(cfg, TrackAfter(cfg, events[..j]), events[j]).Some? && OwnsTuple(cfg, events, j)
    requires MirrorsReply(TcIngress(events[i].packet, At(cfg, events[i].natMap), TrackAfter(cfg, events[..i]), events[i].accept).packet,
                          PlanIngress(events[i].packet, At(cfg, events[i].natMap)).off, dev)
    ensures var (mine, other) := (PlanIngress(events[i].packet, At(cfg, events[i].natMap)),
                                  PlanIngress(events[j].packet, At(cfg, events[j].natMap)));
            DevOutcome(cfg, events, dev, natMap)
            == (if DomainId(other.domainId) in natMap && natMap[DomainId(other.domainId)] == mine.origin
                then Deliver(ETH_LEN, other.clientId, other.domainId) else DropWan)
  {
    hide Encode, Decode, PlanIngress, PlanWan, XdpWan, TcIngress, TrackAfter, LastWriter, HasPrefix, InboundTrackKey,
      OutboundTrackKey, MirrorsReply, IsFlow, IsEthernetIpv6, LooksLikeRawIpv6, SrcAddr, DstAddr, Writes, OwnsTuple;
    var (e, track) := (events[i], TrackAfter(cfg, events[..i]));
    var maps := At(cfg, e.natMap);
    MirrorIsFrame(TcIngress(e.packet, maps, track, e.accept).packet, PlanIngress(e.packet, maps).off, dev);
    ReplyKeyMirrors(e.packet, maps, track, e.accept, dev);
    OwnerIsLastWriter(cfg, events, j);
    DevReply(cfg, events, dev, natMap);
  }

  /** Dev mode refines production: for every run and every packet of it whose insert
      succeeds and whose 4-tuple no other client or domain uses later, the reply leaves
      `tc_ingress_wan` with the addresses and the verdict of the stateless path. */
  lemma DevRefinesProduction(cfg: Maps, events: seq<Event>, i: nat, dev: seq<Byte>, prod: seq<Byte>, natMap: NatMap)
    requires i < |events| && PlanIngress(events[i].packet, At(cfg, events[i].natMap)).Translate?
    requires Wan(cfg).Some? && !HasPrefix(Wan(cfg).value, PROXY_SRC_PREFIX)
    requires Writes(cfg, TrackAfter(cfg, events[..i]), events[i]).Some? && OwnsTuple(cfg, events, i)
    requires MirrorsReply(TcIngress(events[i].packet, At(cfg, events[i].natMap), TrackAfter(cfg, events[..i]), events[i].accept).packet,
                          PlanIngress(events[i].packet, At(cfg, events[i].natMap)).off, dev)
    requires MirrorsReply(TcIngress(events[i].packet, Production(At(cfg, events[i].natMap)), TrackAfter(cfg, events[..i]), events[i].accept).packet,
                          PlanIngress(events[i].packet, At(cfg, events[i].natMap)).off, prod)
    ensures var (later, x) := (At(cfg, natMap), XdpWan(dev, At(cfg, natMap), TrackAfter(cfg, events)).packet);
            var (d, s) := (TcIngressWan(x, later), TcIngressWan(prod, Production(later)));
            && d.action == s.action
            && PlanWan(x, later) == PlanWan(prod, Production(later))
            && (PlanWan(x, later).Deliver? ==>
                  && IsFlow(d.packet, ETH_LEN) && IsFlow(s.packet, ETH_LEN)
                  && SrcAddr(d.packet, ETH_LEN) == SrcAddr(s.packet, ETH_LEN)
                  && DstAddr(d.packet, ETH_LEN) == DstAddr(s.packet, ETH_LEN))
  {
    hide Encode, Decode, PlanIngress, PlanWan, XdpWan, TcIngress, TrackAfter, LastWriter, HasPrefix, MirrorsReply, Writes, OwnsTuple,
      Rewrite, WanField, SyntheticIpv6, ClientVip, IsFlow, SrcAddr, DstAddr;
    var (e, track, later) := (events[i], TrackAfter(cfg, events[..i]), At(cfg, natMap));
    OwnerIsLastWriter(cfg, events, i);
    DevAgreesIffLastWriter(cfg, events, e, track, dev, prod, natMap);
    PlanIgnoresDevMode(e.packet, At(cfg, e.natMap));
    ReplyPassesXdp(e.packet, Production(At(cfg, e.natMap)), track, e.accept, prod, Production(later));
    var x := XdpWan(dev, later, TrackAfter(cfg, events)).packet;
    if PlanWan(x, later).Deliver? {
      ReplyIsDecoded(e.packet, Production(At(cfg, e.natMap)), track, e.accept, prod, Production(later));
      WanEffect(x, later);
      WanEffect(prod, Production(later));
    }
  }
}
