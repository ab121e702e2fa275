# prototype_net: a verified model

prototype_net carries client traffic through an IPsec tunnel. A DNS server hands out a synthetic
IPv6 address for every domain. An eBPF program on the tunnel replaces that address by the real
origin and hides the client and the domain in the source address. Two eBPF programs on the WAN side
undo this for replies. A daemon keeps the kernel map from domain id to origin (NAT_MAP) in step with
the domains table.

The project models three parts and proves what they promise.

- **Data plane.** `Words`, `Addresses`, `Checksum` and `Packets` hold byte layout, address plan and
  one's-complement arithmetic. `ProxySource` is the address codec. `Datapath` says what `tc_ingress`,
  `xdp_wan` and `tc_ingress_wan` compute. `Programs` holds the same programs as methods that overwrite
  a byte array, proved equal to `Datapath`. `RoundTrip`, `ChecksumLaws` and `DevMode` hold the laws
  that span several programs or a whole run. `Verdicts` states what each program decides
  and writes on literal packet offsets. `Datagrams` and `Witnesses` build the inputs of the properties
  that fail.
- **Primitives.** `Splitmix`, `Prince` and `SipHash`, with literal vectors in `Vectors`.
- **Control plane.** `Registry` holds the table, the id sequence and NAT_MAP. `Control` is the
  interleaved step system of DNS handlers, bulk load, listener, resolver and notification queue.
  `Allocation` says what ids the sequence hands out. `Provenance` holds safety over every run.
  `Convergence` says exactly when NAT_MAP catches up within a session, `Startup` extends this to the
  whole table, and `Divergence` is a run that does not catch up.
  `Services` holds the queries and loops as methods on objects, and `Backoff` the reconnect loop.

`dafny verify dfyconfig.toml` checks everything. Nothing was executed.

## What was found

- `encode_proxy_src` uses the lightweight `mix64` scheme. The comments about PRINCE and SipHash in
  ebpf/src/main.rs do not describe it. PRINCE and SipHash are modelled as the primitives they are.
- One comment in common/src/crypto.rs derives k0' by XOR with alpha; the code rotates and shifts k0, as modelled.
- `tc_ingress` stores a computed UDP checksum of zero as zero, which IPv6 receivers discard (section
  8.1 of RFC 8200). `ChecksumLaws.IngressReceivable` gives the exact condition;
  `Witnesses.UnreceivableRequest` has such a datagram for every client, domain and pair of ports.
- The dev-mode checksum compensation runs for every delivered packet, although only those that `xdp_wan`
  rewrote need it. `ChecksumLaws.CompensationExact` says exactly when the result is valid, and
  `Witnesses.BrokenReply` has a valid reply that it breaks.
- The resolver commits an origin and writes NAT_MAP later. `Convergence.ConvergesExactly` says
  which runs converge all the same and `Divergence.ConvergenceCanFail` is one that does not.
- Ids are the low 32 bits of a 64-bit sequence. `Allocation.FreshIdsAlways` covers the first 2^32; after
  that ids repeat (`Allocation.IdIsNumber`) and an insert can fail on a taken one.
- REPLY_TRACK is documented as LRU but is a plain bounded map, and its key has no client in it.
  `DevMode.DevAgreesIffLastWriter` gives the exact condition under which dev mode acts like production;
  `Witnesses.ReplyToWrongClient` is a run in which a reply goes to the wrong client.
- The comment above `xdp_wan` speaks of two accepted prefixes; the code accepts PROXY_SRC_PREFIX only.
- The client pool is configured up to 0xffffffff, but ids above 24 bits are dropped
  (`RoundTrip.ClientPacketsAreTranslated`).
- The synthetic address of domain 1 and the VIP of client 1 are the same address. The configured pool
  starts above it.
- The message that announces a reconnect prints the backoff of the previous attempt; `Backoff` models
  the sleep that follows.

## Assumptions

- In-bounds stores and checksum updates succeed. `bpf_csum_diff` adds the complemented old words and
  the new words. `l4_csum_replace` folds the difference into the complemented field.
- Word sums are written in network order. `Checksum.SwappedSumVerifies` shows that the order does not
  matter.
- Upstream lookups, refused REPLY_TRACK inserts, lost sessions and abandoned handlers are nondeterministic.
  A NAT_MAP insert fails only for a new key in a full map. IPv6 text conversion is exact.
- NAT_MAP starts empty with the daemon: a pin directory is created, but nothing is pinned.
- Replies arrive as Ethernet frames whose first MAC byte does not start with the nibble 6, because the
  source reads such a frame as raw IPv6.
- One SQL statement is one atomic step, as its own transaction. A statement that reports an error has
  changed nothing.

## Model

| member | source | states |
|---|---|---|
| Splitmix.UnmixMix | common/src/lib.rs:161-168 | `mix64` has an explicit left inverse on all 2^64 words |
| Splitmix.MixUnmix | common/src/lib.rs:161-168 | the same function is a right inverse, so `mix64` is a bijection |
| Splitmix.MixInjective | common/src/crypto.rs:410-412 | the finalizer never collides |
| Splitmix.ComputeMix64 | common/src/lib.rs:161-168 | the step-by-step form computes the composed function |
| Prince.RoundKeysReflect | common/src/crypto.rs:21-37 | round 11-i under the reflected key uses the key of round i, for every key |
| Prince.RoundConstantsReflect | common/src/crypto.rs:21-37 | RC[i] and RC[11-i] differ by ALPHA for every round |
| Prince.SboxInverse | common/src/crypto.rs:40-47 | the two S-box tables are inverse permutations |
| Prince.SboxLayersInverse | common/src/crypto.rs:54-92 | the two S-box layers undo each other on every word |
| Prince.SboxLayerNibbles | common/src/crypto.rs:54-71 | every nibble is substituted on its own |
| Prince.Gf2MatMul | common/src/crypto.rs:123-142 | the sixteen masked accumulations compute the matrix product |
| Prince.MatMulLinear | common/src/crypto.rs:123-142 | the product is XOR-linear for every matrix |
| Prince.MatMulColumns | common/src/crypto.rs:108-142 | unit vectors map to the columns, which with linearity determines the product |
| Prince.HatsAreInvolutions | common/src/crypto.rs:104-119 | both hat matrices are their own inverse |
| Prince.Hat0Nibbles | common/src/crypto.rs:104-119 | every nibble of the first matrix product is the sum of the four nibbles, each without one stated bit |
| Prince.Hat1Nibbles | common/src/crypto.rs:104-119 | the same for the second matrix |
| Prince.MPrimeInvolution | common/src/crypto.rs:147-159 | `m_prime` is its own inverse on every word |
| Prince.ShiftRowsInverse | common/src/crypto.rs:192-210 | `shift_rows` and `shift_rows_inv` undo each other |
| Prince.ShiftRowsMovesRows | common/src/crypto.rs:163-199 | where each of the sixteen nibbles goes: row r moves by r columns |
| Prince.MLayersInverse | common/src/crypto.rs:218-226 | `m_layer` and `m_layer_inv` are mutual inverses |
| Prince.RoundsInverse | common/src/crypto.rs:236-265 | a forward and a backward round with the same key undo each other |
| Prince.MiddleInvolution | common/src/crypto.rs:249-252 | the middle layer is an involution |
| Prince.BackwardUndoesForward | common/src/crypto.rs:236-265 | any number of forward rounds is undone by as many backward rounds under the reflected key |
| Prince.CoreReflection | common/src/crypto.rs:236-265 | alpha-reflection: the core under `k1 ^ ALPHA` inverts the core under `k1` |
| Prince.CoreEncrypt | common/src/crypto.rs:236-265 | the unrolled rounds compute the recursive core |
| Prince.DecryptEncrypt | common/src/crypto.rs:274-310 | decryption inverts encryption for every block and key |
| Prince.EncryptDecrypt | common/src/crypto.rs:274-310 | and encryption inverts decryption |
| Prince.K0PrimeInverse | common/src/crypto.rs:283 | the derivation of the second whitening key has an explicit two-sided inverse |
| Prince.Whitening | common/src/crypto.rs:274-288 | the first key half acts on the outside only: the cipher is the one with a zero first half between two xors |
| Vectors.PrinceVector | common/src/crypto.rs:540-552 | the third published vector, through all twelve rounds |
| SipHash.UnroundRound | common/src/crypto.rs:317-335 | the round has an explicit left inverse on every state |
| SipHash.RoundUnround | common/src/crypto.rs:317-335 | and a right inverse, so it permutes the states |
| SipHash.SipRound | common/src/crypto.rs:317-335 | the in-order word updates compute that round |
| SipHash.AbsorbOf17 | common/src/crypto.rs:342-385 | absorbing 17 bytes block by block is two full words and one last word with the length |
| SipHash.Hash17 | common/src/crypto.rs:342-385 | the fixed 17-byte form equals the block-by-block SipHash-2-4 for every key and input |
| Vectors.SipHashVector | common/src/crypto.rs:594-629 | the reference vector for fifteen bytes, through all eight rounds |
| Addresses.DomainIdOfSynthetic | common/src/lib.rs:122-149 | `domain_id_from_ipv6` inverts `synthetic_ipv6` |
| Addresses.ClientIdOfVip | common/src/lib.rs:312-333 | the last four bytes of a VIP give back its client id |
| Addresses.SyntheticInjective | common/src/lib.rs:129-149 | different domain ids have different synthetic addresses |
| Addresses.SyntheticRange | common/src/lib.rs:129-149 | which addresses `synthetic_ipv6` produces, both directions |
| Addresses.VipRange | common/src/lib.rs:312-333 | which addresses `client_vip_from_id24` produces, both directions |
| Addresses.SyntheticMeetsVip | contract.toml:17-33 | a synthetic address is a client VIP exactly when both ids are 1 |
| Addresses.PoolNeverMeetsSynthetic | contract.toml:29-34 | so no client of the configured pool has a synthetic address |
| ProxySource.ComputeIsZero | common/src/lib.rs:54-63 | the accumulating loop decides whether all 32 bytes are zero |
| ProxySource.HashCtxInjective | common/src/crypto.rs:401-434 | distinct flow contexts never collide |
| ProxySource.ComputeHashCtx | common/src/crypto.rs:416-434 | packing and the stepwise finalizer compute the context hash |
| ProxySource.KeyCtxMixInjective | common/src/lib.rs:171-194 | under one key, distinct contexts give distinct masks |
| ProxySource.MaskReachesAll | common/src/lib.rs:171-194 | for every context every 64-bit mask is reached by changing either half of the PRINCE key alone |
| ProxySource.TagReachesAll | common/src/lib.rs:197-222 | for every context and key every 32-bit tag is the tag of some ENC64 |
| ProxySource.TagKeyReachesAll | common/src/lib.rs:197-222 | for every ENC64 and context every tag is reached by changing either half of the SipHash key alone |
| ProxySource.TagWordInjective | common/src/lib.rs:218-221 | before the fold to 32 bits, ENC64 and context never collide under one key |
| Vectors.MaskAndTagVector | common/src/lib.rs:171-222 | one literal mask and tag |
| Vectors.EncodeVector | common/src/lib.rs:228-269 | one literal address, prefix, ENC64 and tag |
| ProxySource.PayloadRoundTrip | common/src/lib.rs:228-269 | 24-bit ids survive packing into the payload |
| ProxySource.PayloadCanonical | common/src/lib.rs:276-307 | a payload with zero padding is the packing of the ids read from it |
| ProxySource.ScrambleInverse | common/src/lib.rs:228-307 | the masked rotation is undone for every rotation amount, zero included |
| ProxySource.EncodeThenDecode | common/src/lib.rs:228-307 | every encoding decodes to what was encoded |
| ProxySource.DecodeThenEncode | common/src/lib.rs:228-307 | every address that decodes is the encoding of the result, up to the prefix the decoder ignores |
| ProxySource.DecodeIgnoresPrefix | common/src/lib.rs:276-307 | decoding does not depend on the prefix |
| ProxySource.ExactInverse | common/src/lib.rs:228-307 | decoding and encoding are exact partial inverses, for every key, context and rotation |
| ProxySource.EncodeInjective | common/src/lib.rs:228-269 | under one context and key no two (client, domain) pairs share an address |
| Checksum.UpdateResidue | ebpf/src/main.rs:128-146 | one update moves the field by exactly the difference of the addresses modulo 65535 |
| Checksum.FoldKeepsResidue | ebpf/src/main.rs:128-146 | folding carries keeps the residue modulo 65535, and only zero folds to zero |
| Checksum.MarkMangledIsIdentity | ebpf/src/main.rs:676-683 | the final zero update keeps the field |
| Checksum.ByteOrderIndependence | ebpf/src/main.rs:120-126 | the byte-swapped sum is 256 times the sum modulo 65535 |
| Checksum.SwappedSumVerifies | ebpf/src/main.rs:120-126 | a sum verifies in one byte order exactly when it does in the other |
| Packets.RewriteKeepsValidity | ebpf/src/main.rs:532-534 | a rewrite keeps checksum validity, both ways, when the field makes up for the addresses modulo 65535 |
| Packets.RewriteTouchesOnlyFields | ebpf/src/main.rs:469-484 | a rewrite changes bytes only in the addresses and the checksum |
| Packets.RewriteReadsBack | ebpf/src/main.rs:469-484 | what was written is read back, protocol and ports are as before |
| Packets.RewriteSum | ebpf/src/main.rs:532-534 | the covered sum changes by exactly the words replaced |
| Verdicts.IngressVerdict | ebpf/src/main.rs:392-467 | for every packet with an IPv6 header, on literal offsets: dropped exactly for an unmapped synthetic domain, or whole without a key or with an id above 24 bits; translated exactly for the other whole synthetic packets; else passed as it is |
| Verdicts.IngressBytes | ebpf/src/main.rs:469-534 | which bytes a translation writes: addresses at 8 to 39, checksum at 56 and 57 for TCP, 46 and 47 for UDP, and what the addresses are |
| Verdicts.IngressTracks | ebpf/src/main.rs:489-507 | the exact effect on REPLY_TRACK, with the key in packet bytes and the limit of 65536 |
| Verdicts.IngressWithoutHeader | ebpf/src/main.rs:160-174 | a packet without an IPv6 header passes both TC programs as it is |
| Verdicts.XdpVerdict | ebpf/src/main.rs:218-347 | the WAN filter drops a frame if and only if it is IPv6, not ICMPv6, not for the proxy prefix and not for the WAN address, and then does not change it |
| Verdicts.XdpBytes | ebpf/src/main.rs:276-331 | a frame is changed only for a tracked key, given in packet bytes, and only in its destination |
| Verdicts.WanVerdict | ebpf/src/main.rs:562-695 | what is not whole and for the proxy prefix passes as it is; of the rest, what is a genuine reply to nobody is dropped as it is, and what is one is redirected, or dropped without an interface; only addresses and checksum change |
| Datapath.IngressAllOrNothing | ebpf/src/main.rs:392-537 | for every byte string, nothing changes or only the addresses and the checksum do |
| Datapath.IngressTranslatesExactlyRequests | ebpf/src/main.rs:392-467 | a packet is translated for (c, d) if and only if it is TCP or UDP from a source ending in c to a synthetic address of the mapped domain d, both ids fit in 24 bits and a key is set |
| Datapath.IngressEffect | ebpf/src/main.rs:430-534 | a translated packet leaves for the mapped origin with ports and framing kept |
| Datapath.IngressKeepsChecksum | ebpf/src/main.rs:532-534 | the checksum is valid afterwards exactly when it was before |
| Datapath.WanAllOrNothing | ebpf/src/main.rs:562-683 | a packet passed with TC_ACT_OK is byte-identical, otherwise only fields change |
| Datapath.WanEffect | ebpf/src/main.rs:633-658 | a delivered reply carries the synthetic address and the VIP, ports and framing are kept |
| Datapath.WanDeliversExactlyGenuineReplies | ebpf/src/main.rs:584-631 | a reply is delivered to (c, d) if and only if its destination encodes (c, d) for the swapped ports and NAT_MAP maps d to the sender |
| Datapath.WanRedirectSoundness | ebpf/src/main.rs:633-711 | every redirected packet was such a reply and leaves from the synthetic address of d to the VIP of c |
| ChecksumLaws.WanKeepsChecksum | ebpf/src/main.rs:656-658 | in production the reply path keeps validity, both ways |
| ChecksumLaws.TrackedReplyKeepsChecksum | ebpf/src/main.rs:315-324 | in dev mode the WAN, proxy-source, client chain keeps the validity of the packet that arrived |
| ChecksumLaws.CompensationExact | ebpf/src/main.rs:660-674 | for every delivered packet in dev mode the checksum is valid afterwards if and only if it was valid for the packet with the WAN address as destination |
| ChecksumLaws.CompensationOfValid | ebpf/src/main.rs:660-674 | so a packet that is valid as it reaches `tc_ingress_wan` stays valid exactly when its destination sums like the WAN address |
| ChecksumLaws.BreakingWan | ebpf/src/main.rs:660-674 | for every valid delivered packet and every address, a WAN address that differs from it in the last word only breaks the checksum |
| ChecksumLaws.IngressReceivable | ebpf/src/main.rs:128-146 | a valid datagram stays receivable exactly when it is not UDP or the rest of the translation does not sum to zero |
| ChecksumLaws.UnreceivableOrigin | ebpf/src/main.rs:532-534 | for every valid translated UDP packet, an origin that differs from the mapped one in the last word only makes its translation unreceivable |
| ChecksumLaws.FieldNeverOnes | ebpf/src/main.rs:128-146 | an update never stores 0xffff, so a zero is never avoided |
| RoundTrip.MirroredReply | ebpf/src/main.rs:592-606 | every TCP or UDP packet has a mirrored reply, so that premise of the round-trip laws can always be met |
| RoundTrip.ReplyIsDecoded | ebpf/src/main.rs:247-256 | a mirrored reply passes `xdp_wan`, and `tc_ingress_wan` recovers client and domain; it is delivered exactly when NAT_MAP still maps the domain to the origin |
| RoundTrip.NatRoundTrip | ebpf/src/main.rs:392-537 | the reply goes into the tunnel from the domain's synthetic address to the client's VIP, and these are the original addresses exactly when the request used canonical ones |
| RoundTrip.ClientPacketsAreTranslated | ebpf/src/main.rs:421-467 | while a key is set, packets of a VIP to a mapped synthetic address are translated exactly when both ids fit in 24 bits, else dropped |
| RoundTrip.ClientRoundTrip | ebpf/src/main.rs:562-695 | for ordinary clients the reply arrives with source and destination of the request swapped |
| DevMode.TrackInvariant | ebpf/src/main.rs:489-507 | after every run a key is in REPLY_TRACK exactly when it was written, and holds the encoding of the last writer under the context the key describes |
| DevMode.TrackBounded | ebpf/src/main.rs:54-56 | the table never outgrows its 65536 entries |
| DevMode.TrackStep | ebpf/src/main.rs:489-507 | one packet writes at most its own key, with the encoding under the context of that key |
| DevMode.PlanIgnoresDevMode | ebpf/src/main.rs:486-525 | what is translated or delivered does not depend on the WAN address |
| DevMode.ReplyKeyMirrors | ebpf/src/main.rs:293-308 | the key `xdp_wan` looks up for a mirrored reply is the key `tc_ingress` wrote |
| DevMode.XdpHit | ebpf/src/main.rs:261-331 | a hit replaces the destination by the tracked address and keeps source and context; a miss changes nothing |
| DevMode.OwnerIsLastWriter | ebpf/src/main.rs:495-507 | a packet whose 4-tuple nobody else uses later stays the last writer |
| DevMode.DevReply | ebpf/src/main.rs:261-331 | after every run, a reply to the WAN address passes unchanged without a writer, else decodes to the last writer and is delivered exactly when NAT_MAP maps its domain to the sender |
| DevMode.DevAgreesIffLastWriter | ebpf/src/main.rs:293-325 | dev mode delivers like production exactly when the client and domain are the last writer of the 4-tuple |
| DevMode.ReplyGoesToLastWriter | ebpf/src/main.rs:293-325 | in every run, once a later packet takes the 4-tuple and owns it, every reply to the earlier packet goes to the client of the later one, or is dropped when NAT_MAP does not map its domain to the sender |
| DevMode.DevRefinesProduction | ebpf/src/main.rs:486-525 | for every packet of a run whose insert succeeds and whose 4-tuple nobody else uses later, action and addresses equal the stateless path |
| Datagrams.ValidDatagramIsReceivable | ebpf/src/main.rs:120-146 | for all addresses, ports and payload words there is a datagram that a receiver accepts |
| Datagrams.ValidMirror | ebpf/src/main.rs:592-606 | every UDP packet has a mirrored reply with a valid checksum |
| Witnesses.RequestIsTranslated | ebpf/src/main.rs:392-467 | for every 24-bit client and mapped 24-bit domain, all ports and every key there is a valid datagram that `tc_ingress` translates |
| Witnesses.UnreceivableRequest | ebpf/src/main.rs:532-534 | for every client, domain, pair of ports and configuration, with the origin already mapped, some payload word makes the translation of a valid datagram unreceivable |
| Witnesses.ValidReply | ebpf/src/main.rs:562-631 | for all of these there is a valid mirrored reply, and it is delivered |
| Witnesses.BrokenReply | ebpf/src/main.rs:660-674 | and near every address a WAN address under which that reply is delivered with a wrong checksum |
| Witnesses.ReplyToWrongClient | ebpf/src/main.rs:495-507 | for every two clients of domains with one origin: a run of two packets after which the reply to the first is delivered to the second, and in production to the first |
| Programs.StoreAddress | ebpf/src/main.rs:480-484 | the store loop replaces exactly sixteen bytes |
| Programs.UpdateCsum | ebpf/src/main.rs:128-146 | the helper replaces exactly the checksum field by the updated value |
| Programs.RewriteOutbound | ebpf/src/main.rs:469-534 | stores and checksum updates in source order amount to one rewrite |
| Programs.FindIpv6Offset | ebpf/src/main.rs:160-174 | framing detection by the first nibble, then by EtherType |
| Programs.Kernel.PlanIngress | ebpf/src/main.rs:392-467 | the checks in source order give the verdict and fields of `Datapath.PlanIngress` |
| Programs.Kernel.PlanWan | ebpf/src/main.rs:562-634 | the checks in source order give the verdict and fields of `Datapath.PlanWan` |
| Programs.Kernel.TcIngress | ebpf/src/main.rs:392-537 | the in-place program leaves packet, verdict and REPLY_TRACK as `Datapath.TcIngress` says |
| Programs.Kernel.XdpWan | ebpf/src/main.rs:218-347 | the in-place program leaves packet and verdict as `Datapath.XdpWan` says |
| Programs.Kernel.TcIngressWan | ebpf/src/main.rs:562-695 | the in-place program leaves packet and verdict as `Datapath.TcIngressWan` says |
| Registry.UpsertLaws | dns-server/src/db.rs:73-84 | the upsert keeps ids unique and synthetic addresses right, never changes an assigned id or address, and touches one row |
| Registry.SetOriginLaws | daemon/src/resolver.rs:51-59 | the update changes the origin of the row with that id and nothing else |
| Registry.IdsCountRows | migrations/001_initial.sql:8-17 | in a well-formed table any set of rows has as many ids |
| Registry.InsertWithin | daemon/src/maps.rs:37-55 | one more insert succeeds exactly when the map can hold one id more |
| Registry.TableFits | ebpf/src/main.rs:28-30 | while NAT_MAP only holds ids of a well-formed table that fits, there is room for every row |
| Control.InvStep | dns-server/src/handler.rs:69-136 | every step of every actor keeps the invariant |
| Control.InvAlways | migrations/001_initial.sql:4-17 | in every reachable state the table is well-formed, every answer is the stored one and snapshots lag behind the table |
| Allocation.SequenceCounts | migrations/001_initial.sql:4-5 | in every run the numbers drawn are 1, 2, 3, … without a gap, one for each allocation, and the sequence stands at the last |
| Allocation.SequenceEnds | migrations/001_initial.sql:5 | the sequence ends at 2^63 - 1 |
| Allocation.IdIsNumber | dns-server/src/db.rs:97-104 | below 2^32 an id is its number, and two numbers share an id exactly when they agree in the low 32 bits |
| Allocation.FreshIdsAlways | dns-server/src/db.rs:97-104 | in every run, while fewer than 2^32 ids were drawn, every id of a row or a waiting handler was drawn and all are distinct |
| Allocation.StoresAnswer | dns-server/src/handler.rs:108-135 | so every insert succeeds and its handler answers with the stored address |
| Allocation.NextIdIsFresh | dns-server/src/handler.rs:103-119 | for a call without interference: the next id is fresh, so only database faults make it fail |
| Allocation.RegisterTwo | dns-server/src/handler.rs:69-136 | from nothing, two new domains get ids 1 and 2 |
| Provenance.AnswerIsStored | dns-server/src/handler.rs:121-134 | an answer given at any time is the stored synthetic address of its domain ever after |
| Provenance.AnswersAgree | dns-server/src/handler.rs:69-136 | over every interleaving two answers are equal exactly when their domains are |
| Provenance.SyntheticIsStable | dns-server/src/db.rs:77-82 | a row keeps its id and the synthetic address of that id forever |
| Provenance.CarriesStep | daemon/src/db.rs:76-112 | no step invents an origin |
| Provenance.CarriedIsRecorded | daemon/src/db.rs:76-112 | over every run, an origin in NAT_MAP or on its way there was recorded for that id |
| Provenance.NatMapIsRecorded | daemon/src/resolver.rs:40-62 | NAT_MAP only ever holds origins the table recorded for that domain |
| Provenance.TranslatedPacketsReachTheirDomain | ebpf/src/main.rs:430-438 | in every run, a translated packet to an answer for n leaves for an origin recorded for n |
| Convergence.FetchedSoundAlways | daemon/src/db.rs:86-105 | in every reachable state, what the listener is about to write is current or its row is queued again |
| Convergence.SessionStep | daemon/src/resolver.rs:40-62 | one step of a session seen from one row: a commit notifies it, a harmful write leaves it stale, stale stays stale until a commit, covered stays covered until a harmful write |
| Convergence.ConvergingStep | daemon/src/resolver.rs:51-62 | with room, a step keeps a row committed in this session covered if and only if it is not a harmful late write of that row |
| Convergence.StepFits | ebpf/src/main.rs:28-30 | as long as the final table fits, no map write of the run is refused |
| Convergence.CoveredSince | daemon/src/db.rs:76-112 | in a session, a committed row stays covered until a harmful write of it |
| Convergence.StaleSince | daemon/src/resolver.rs:51-62 | after a harmful write the row stays stale until it is committed again |
| Convergence.ConvergesExactly | daemon/src/db.rs:69-112 | in every quiescent state of every session NAT_MAP agrees on a row committed since LISTEN if and only if every harmful late write of that row in the session was followed by another commit of it |
| Convergence.ConvergingAlways | daemon/src/db.rs:69-112 | without a harmful write of the row in this session it is covered at all times, whatever happened in other sessions or to other rows |
| Convergence.ListenerConvergence | daemon/src/db.rs:69-112 | without a harmful write of the row in this session, NAT_MAP agrees with the table on it in every quiescent state |
| Convergence.QuietIsHarmless | daemon/src/resolver.rs:51-62 | a session without an upsert of the row between update and map write has no harmful write of it |
| Convergence.QuietConvergence | migrations/001_initial.sql:25-36 | so NAT_MAP agrees on every committed row that is not upserted, in this session, between the resolver's update of it and the map write |
| Startup.FreshUntilListen | daemon/src/maps.rs:73-103 | if nothing is committed from the bulk load until LISTEN, every row is in NAT_MAP or still to be loaded |
| Startup.WholeTableConverges | daemon/src/db.rs:64-112 | after such a start, in every quiescent state of the session NAT_MAP is exactly the id-to-origin image of the whole table if and only if every harmful late write of any row was followed by another commit of that row |
| Divergence.ConvergenceCanFail | daemon/src/resolver.rs:51-62 | a run that ends quiescent with NAT_MAP and table apart |
| Services.Database.FindByDomain | dns-server/src/db.rs:41-63 | finds the row exactly when the domain is stored |
| Services.Database.NextDomainId | dns-server/src/db.rs:97-104 | the next sequence value, truncated to 32 bits, or an error at its end |
| Services.Database.InsertDomain | dns-server/src/db.rs:65-95 | the stored row is returned and notified, the first id and address win; fails exactly on a database fault or when a new row would repeat an id, and then nothing changes |
| Services.Database.UpdateOrigin | daemon/src/resolver.rs:51-59 | the update with its trigger: the row with the id changes and is notified, if there is one |
| Services.Database.FetchOrigin | daemon/src/db.rs:86-93 | finds the row with an id exactly when there is one |
| Services.BpfMaps.InsertNatEntry | daemon/src/maps.rs:37-55 | writes the entry unless the map is full and the key new |
| Services.HandleAaaa | dns-server/src/handler.rs:69-136 | a known domain gets its stored address and nothing changes; NXDOMAIN and SERVFAIL change nothing; a resolved new domain gets exactly one new row with a fresh id, one notification and that address as answer; an error occurs exactly on a database fault or without a fresh id, and never changes the table |
| Services.BulkLoad | daemon/src/maps.rs:73-103 | succeeds exactly when the map can hold the ids of the table (from an empty map: when the table fits); then every row is in NAT_MAP and every other entry is as before |
| Services.DrainNotifications | daemon/src/db.rs:76-112 | after the receive loop NAT_MAP is current for every notified id except the refused ones, which are exactly ids of rows that a full map does not hold; entries of other ids are unchanged |
| Services.ChangeOrigin | daemon/src/resolver.rs:51-62 | commits and notifies first, then writes the map; a full map fails after the commit |
| Services.ResolveAll | daemon/src/resolver.rs:23-73 | succeeds exactly when the map can hold the ids of the changed rows; then every row has the origin found, each changed row is notified once and written, and no other entry changes; a failure leaves a committed row outside the full map |
| Backoff.StreakMeaning | daemon/src/db.rs:53-58 | the streak counts the short sessions since the last healthy one |
| Backoff.DoublingUnderCap | daemon/src/db.rs:57 | doubling under the cap is the capped power of two |
| Backoff.ListenForChanges | daemon/src/db.rs:30-62 | every sleep is min(2^k, 30) seconds for a streak of k, within 1 and 30; the loop ends exactly at the first failed pool creation |

## Left out

- Kernel and aya internals: checksum-offload state of packets, redirection, program loading and attachment.
- The previous obfuscation key, which is written but never read when decoding.
- That changing any bit of an encoded address is detected, or that different contexts give different encodings: neither holds universally, the tag folds 64 bits to 32.
- Cryptographic strength of any primitive.
- Convergence across sessions: changes between bulk load and LISTEN, or during a reconnect, are not replayed by the source.
- Zero UDP checksums on the reply path, where the packet is handed to the kernel for recomputation.
- Control: that a known domain is answered at once, that a handler without a record or an abandoned one leaves no trace, that the end of a session clears its queue and that a full map ends a sweep is not stated as a law of its steps; the laws here would hold without it. `Services.HandleAaaa` and `Services.ResolveAll` state the first, second and last for one call.
- Services.HandleAaaa: proved for a call without interference, because interleaving is the subject of Control.
- Services.BulkLoad: proved for a call without interference, because interleaving is the subject of Control.
- Services.DrainNotifications: proved for a call without interference, because interleaving is the subject of Control.
- Services.ResolveAll: proved for a call without interference, because interleaving is the subject of Control.
- Backoff.ListenForChanges: covers every finite history of attempts, because the loop of the source need not end.
- The siphasher crate behind `siphash_2_4`: not part of this model; the general hash is the published definition.
- The SERIAL primary key and its own sequence, and other causes of database errors: they are the faults of Services.Database.InsertDomain and Services.HandleAaaa.
- `remove_nat_entry`, which nothing calls.
- TTLs, timestamps, DNS message encoding, non-AAAA queries, debug counters and log lines.
- dns-server/src/main.rs, dns-server/src/resolver.rs, daemon/src/loader.rs, daemon/src/main.rs, common/build.rs, xtask, macos-agent, client, dev, certs, ansible and terraform.
