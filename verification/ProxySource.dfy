/** The proxy-source address codec of common/src/lib.rs: client and domain ids
    hidden in an IPv6 address under a flow context and a key. */
module ProxySource {
  import opened Wrappers
  import opened Words
  import opened Addresses
  import opened Splitmix

  type KeyHalf = k: seq<Byte> | |k| == 16 witness seq(16, _ => 0)

  /** Ports are in host order. */
  datatype Ctx = Ctx(srcPort: bv16, dstPort: bv16, proto: Byte)

  datatype Key = Key(princeKey: KeyHalf, siphashKey: KeyHalf)

  const CLIENT_ID_MAX: bv32 := 0x00FF_FFFF
  const DOMAIN_ID_MAX: bv32 := 0x00FF_FFFF

  // -------------------------------------------------------------------------
  // Key checks
  // -------------------------------------------------------------------------

  predicate IsZero(key: Key) {
    forall i :: 0 <= i < 16 ==> key.princeKey[i] == 0 && key.siphashKey[i] == 0
  }

  lemma OrIsZero(acc: Byte, x: Byte, y: Byte)
    ensures (acc | x | y) == 0 <==> acc == 0 && x == 0 && y == 0
  {
  }

  /** `ProxySrcKey::is_zero`: or-accumulate both halves. */
  method ComputeIsZero(key: Key) returns (zero: bool)
    ensures zero <==> IsZero(key)
  {
    var acc: Byte := 0;
    var i := 0;
    while i < 16
      invariant 0 <= i <= 16
      invariant acc == 0 <==> forall j :: 0 <= j < i ==> key.princeKey[j] == 0 && key.siphashKey[j] == 0
    {
      OrIsZero(acc, key.princeKey[i], key.siphashKey[i]);
      acc := acc | key.princeKey[i] | key.siphashKey[i];
      i := i + 1;
    }
    zero := acc == 0;
  }

  // -------------------------------------------------------------------------
  // Context hash and key mix
  // -------------------------------------------------------------------------

  /** The five context bytes in the upper part of a word. */
  function Pack(ctx: Ctx): bv64 {
    (ctx.srcPort as bv64 << 48) | (ctx.dstPort as bv64 << 32) | (ctx.proto as bv64 << 24)
  }

  function Unpack(p: bv64): Ctx {
    Ctx((p >> 48) as bv16, ((p >> 32) & 0xFFFF) as bv16, ((p >> 24) & 0xFF) as Byte)
  }

  lemma UnpackPack(ctx: Ctx)
    ensures Unpack(Pack(ctx)) == ctx
  {
  }

  lemma PackInjective(a: Ctx, b: Ctx)
    requires Pack(a) == Pack(b)
    ensures a == b
  {
    hide Pack, Unpack;
    UnpackPack(a);
    UnpackPack(b);
  }

  function HashCtx(ctx: Ctx): bv64 {
    Mix64(Pack(ctx))
  }

  /** Distinct flow contexts never collide. */
  lemma HashCtxInjective(a: Ctx, b: Ctx)
    requires HashCtx(a) == HashCtx(b)
    ensures a == b
  {
    hide Mix64, Pack;
    MixInjective(Pack(a), Pack(b));
    PackInjective(a, b);
  }

  /** The frozen vectors of the tests. */
  lemma HashCtxVectors()
    ensures HashCtx(Ctx(0, 0, 0)) == 0
    ensures HashCtx(Ctx(443, 50000, 6)) == 0xae510a47a775e0c3
    ensures HashCtx(Ctx(50000, 443, 6)) == 0x6999dcb37e570b67
    ensures HashCtx(Ctx(443, 50000, 17)) == 0x8e7b5430862b54bc
    ensures HashCtx(Ctx(1, 1, 1)) == 0xfbf2b99b8d507220
  {
  }

  /** `hash_ctx` */
  method ComputeHashCtx(ctx: Ctx) returns (h: bv64)
    ensures h == HashCtx(ctx)
  {
    hide Pack, Mix64;
    h := ComputeMix64(Pack(ctx));
  }

  function KeySum(k0: bv64, k1: bv64): bv64 {
    k0.RotateLeft(11) ^ k1.RotateRight(7) ^ 0x9e3779b97f4a7c15
  }

  function KeyMask(key: Key): bv64 {
    KeySum(Be64(key.princeKey[..8]), Be64(key.princeKey[8..]))
  }

  function Blend(h: bv64, mask: bv64): bv64 {
    h ^ mask
  }

  lemma BlendInjective(g: bv64, h: bv64, mask: bv64)
    requires Blend(g, mask) == Blend(h, mask)
    ensures g == h
  {
    assert g == (g ^ mask) ^ mask && h == (h ^ mask) ^ mask;
  }

  function KeyCtxMix(ctx: Ctx, key: Key): bv64 {
    Mix64(Blend(HashCtx(ctx), KeyMask(key)))
  }

  /** Under one key, distinct flow contexts give distinct masks. */
  lemma KeyCtxMixInjective(a: Ctx, b: Ctx, key: Key)
    requires KeyCtxMix(a, key) == KeyCtxMix(b, key)
    ensures a == b
  {
    hide Mix64, Blend, HashCtx, KeyMask;
    MixInjective(Blend(HashCtx(a), KeyMask(key)), Blend(HashCtx(b), KeyMask(key)));
    BlendInjective(HashCtx(a), HashCtx(b), KeyMask(key));
    HashCtxInjective(a, b);
  }

  function TagSum(k2: bv64, k3: bv64): bv64 {
    k2.RotateLeft(13) ^ k3.RotateRight(17) ^ 0xa0761d6478bd642f
  }

  function TagMask(key: Key): bv64 {
    TagSum(Be64(key.siphashKey[..8]), Be64(key.siphashKey[8..]))
  }

  function FoldTag(t: bv64): bv32 {
    ((t & 0xFFFF_FFFF) as bv32) ^ ((t >> 32) as bv32)
  }

  function Tag32(enc: bv64, ctx: Ctx, key: Key): bv32 {
    FoldTag(Mix64(Blend(Blend(enc, Pack(ctx)), TagMask(key))))
  }

  // -------------------------------------------------------------------------
  // Mask and tag depend on all of their inputs
  // -------------------------------------------------------------------------

  /** The key with another half of its first or second part. */
  function WithPrince0(key: Key, k: bv64): Key { key.(princeKey := ToBe64(k) + key.princeKey[8..]) }
  function WithPrince1(key: Key, k: bv64): Key { key.(princeKey := key.princeKey[..8] + ToBe64(k)) }
  function WithSiphash0(key: Key, k: bv64): Key { key.(siphashKey := ToBe64(k) + key.siphashKey[8..]) }
  function WithSiphash1(key: Key, k: bv64): Key { key.(siphashKey := key.siphashKey[..8] + ToBe64(k)) }

  lemma HalvesOf(half: KeyHalf, k: bv64)
    ensures (ToBe64(k) + half[8..])[..8] == ToBe64(k) && (ToBe64(k) + half[8..])[8..] == half[8..]
    ensures (half[..8] + ToBe64(k))[..8] == half[..8] && (half[..8] + ToBe64(k))[8..] == ToBe64(k)
    ensures Be64(ToBe64(k)) == k
  {
    hide Be64, ToBe64;
    Be64RoundTrip(k);
  }

  lemma BlendTwice(a: bv64, b: bv64)
    ensures Blend(Blend(a, b), b) == a && Blend(b, Blend(b, a)) == a && Blend(a, Blend(a, b)) == b
  {
  }

  /** Either argument alone brings the sum to every word. */
  lemma SolveKeySum(w: bv64, other: bv64) returns (k0: bv64, k1: bv64)
    ensures KeySum(k0, other) == w && KeySum(other, k1) == w
  {
    k0 := (w ^ other.RotateRight(7) ^ 0x9e3779b97f4a7c15).RotateRight(11);
    k1 := (w ^ other.RotateLeft(11) ^ 0x9e3779b97f4a7c15).RotateLeft(7);
  }

  lemma SolveTagSum(w: bv64, other: bv64) returns (k2: bv64, k3: bv64)
    ensures TagSum(k2, other) == w && TagSum(other, k3) == w
  {
    k2 := (w ^ other.RotateRight(17) ^ 0xa0761d6478bd642f).RotateRight(13);
    k3 := (w ^ other.RotateLeft(13) ^ 0xa0761d6478bd642f).RotateLeft(17);
  }

  /** For every context, every mask is reached by changing either half of the PRINCE key. */
  lemma MaskReachesAll(m: bv64, ctx: Ctx, key: Key) returns (k0: bv64, k1: bv64)
    ensures KeyCtxMix(ctx, WithPrince0(key, k0)) == m && KeyCtxMix(ctx, WithPrince1(key, k1)) == m
  {
    hide Mix64, Unmix64, HashCtx, Blend, KeySum, Be64, ToBe64;
    var w := Blend(HashCtx(ctx), Unmix64(m));
    BlendTwice(HashCtx(ctx), Unmix64(m));
    MixUnmix(m);
    var unused: bv64;
    k0, unused := SolveKeySum(w, Be64(key.princeKey[8..]));
    unused, k1 := SolveKeySum(w, Be64(key.princeKey[..8]));
    HalvesOf(key.princeKey, k0);
    HalvesOf(key.princeKey, k1);
  }

  lemma FoldTagOnto(t: bv32)
    ensures FoldTag(t as bv64) == t
  {
  }

  /** For every context and key, every tag is the tag of some `ENC64`. */
  lemma TagReachesAll(t: bv32, ctx: Ctx, key: Key) returns (enc: bv64)
    ensures Tag32(enc, ctx, key) == t
  {
    hide Mix64, Unmix64, Pack, TagMask, FoldTag, Blend;
    var x := Unmix64(t as bv64);
    enc := Blend(Blend(x, TagMask(key)), Pack(ctx));
    BlendTwice(Blend(x, TagMask(key)), Pack(ctx));
    BlendTwice(x, TagMask(key));
    MixUnmix(t as bv64);
    FoldTagOnto(t);
  }

  /** And for every `ENC64` and context it is reached by changing either half of the
      SipHash key. */
  lemma TagKeyReachesAll(t: bv32, enc: bv64, ctx: Ctx, key: Key) returns (k2: bv64, k3: bv64)
    ensures Tag32(enc, ctx, WithSiphash0(key, k2)) == t && Tag32(enc, ctx, WithSiphash1(key, k3)) == t
  {
    hide Mix64, Unmix64, Pack, FoldTag, Blend, TagSum, Be64, ToBe64;
    var base := Blend(enc, Pack(ctx));
    var w := Blend(base, Unmix64(t as bv64));
    BlendTwice(base, Unmix64(t as bv64));
    MixUnmix(t as bv64);
    FoldTagOnto(t);
    var unused: bv64;
    k2, unused := SolveTagSum(w, Be64(key.siphashKey[8..]));
    unused, k3 := SolveTagSum(w, Be64(key.siphashKey[..8]));
    HalvesOf(key.siphashKey, k2);
    HalvesOf(key.siphashKey, k3);
  }

  /** Before the final fold to 32 bits nothing collides: under one key the mixed word
      determines the context for a fixed `ENC64`, and the `ENC64` for a fixed context. */
  lemma TagWordInjective(enc: bv64, enc': bv64, ctx: Ctx, ctx': Ctx, key: Key)
    requires enc == enc' || ctx == ctx'
    requires Mix64(Blend(Blend(enc, Pack(ctx)), TagMask(key))) == Mix64(Blend(Blend(enc', Pack(ctx')), TagMask(key)))
    ensures enc == enc' && ctx == ctx'
  {
    hide Mix64, Pack, TagMask, Blend;
    MixInjective(Blend(Blend(enc, Pack(ctx)), TagMask(key)), Blend(Blend(enc', Pack(ctx')), TagMask(key)));
    BlendInjective(Blend(enc, Pack(ctx)), Blend(enc', Pack(ctx')), TagMask(key));
    BlendTwice(enc, Pack(ctx));
    BlendTwice(enc', Pack(ctx'));
    if enc == enc' {
      BlendTwice(enc, Pack(ctx'));
      PackInjective(ctx, ctx');
    }
  }

  // -------------------------------------------------------------------------
  // The 64-bit payload and its keyed scrambling
  // -------------------------------------------------------------------------

  function Payload(clientId: bv32, domainId: bv32): bv64 {
    (clientId as bv64 << 40) | (domainId as bv64 << 16)
  }

  predicate Padded(p: bv64) { p & 0xFFFF == 0 }
  function PayloadClient(p: bv64): bv32 { ((p >> 40) & 0x00FF_FFFF) as bv32 }
  function PayloadDomain(p: bv64): bv32 { ((p >> 16) & 0x00FF_FFFF) as bv32 }

  lemma PayloadRoundTrip(c: bv32, d: bv32)
    requires c <= CLIENT_ID_MAX && d <= DOMAIN_ID_MAX
    ensures Padded(Payload(c, d)) && PayloadClient(Payload(c, d)) == c && PayloadDomain(Payload(c, d)) == d
  {
  }

  lemma PayloadCanonical(p: bv64)
    requires Padded(p)
    ensures Payload(PayloadClient(p), PayloadDomain(p)) == p
    ensures PayloadClient(p) <= CLIENT_ID_MAX && PayloadDomain(p) <= DOMAIN_ID_MAX
  {
  }

  function Rotation(m: bv64): (r: nat)
    ensures r < 64
  {
    ((m & 63) as bv6) as nat
  }

  function Turn(p: bv64, r: nat): bv64
    requires r < 64
  {
    p.RotateLeft(r)
  }

  function Scramble(p: bv64, m: bv64): bv64 {
    Turn(p, Rotation(m)) ^ m ^ 0xa5a5_a5a5_a5a5_a5a5
  }

  function Unscramble(e: bv64, m: bv64): bv64 {
    (e ^ m ^ 0xa5a5_a5a5_a5a5_a5a5).RotateRight(Rotation(m))
  }

  lemma ScrambleIs(p: bv64, m: bv64)
    ensures Scramble(p, m) == p.RotateLeft(Rotation(m)) ^ m ^ 0xa5a5_a5a5_a5a5_a5a5
    ensures Unscramble(p, m) == (p ^ m ^ 0xa5a5_a5a5_a5a5_a5a5).RotateRight(Rotation(m))
  {
  }

  lemma UnscrambleRaw(p: bv64, m: bv64)
    ensures Unscramble(p.RotateLeft(Rotation(m)) ^ m ^ 0xa5a5_a5a5_a5a5_a5a5, m) == p
  {
  }

  lemma ScrambleRaw(e: bv64, m: bv64)
    ensures Scramble((e ^ m ^ 0xa5a5_a5a5_a5a5_a5a5).RotateRight(Rotation(m)), m) == e
  {
  }

  lemma ScrambleInverse(x: bv64, m: bv64)
    ensures Unscramble(Scramble(x, m), m) == x && Scramble(Unscramble(x, m), m) == x
  {
    hide Scramble, Unscramble, Rotation;
    ScrambleIs(x, m);
    UnscrambleRaw(x, m);
    ScrambleRaw(x, m);
  }

  // -------------------------------------------------------------------------
  // The codec
  // -------------------------------------------------------------------------

  function Assemble(enc: bv64, tag: bv32): Address {
    PROXY_SRC_PREFIX + ToBe64(enc) + ToBe32(tag)
  }

  function EncOf(a: Address): bv64 { Be64(a[4..12]) }
  function TagOf(a: Address): bv32 { Be32(a[12..16]) }

  lemma AssembleParts(enc: bv64, tag: bv32)
    ensures EncOf(Assemble(enc, tag)) == enc && TagOf(Assemble(enc, tag)) == tag
    ensures HasPrefix(Assemble(enc, tag), PROXY_SRC_PREFIX)
  {
    hide Be64, Be32, ToBe64, ToBe32;
    var a := Assemble(enc, tag);
    assert a[4..12] == ToBe64(enc) && a[12..16] == ToBe32(tag);
    Be64RoundTrip(enc);
    Be32RoundTrip(tag);
  }

  lemma PartsAssemble(a: Address)
    ensures Assemble(EncOf(a), TagOf(a)) == PROXY_SRC_PREFIX + a[4..]
  {
    hide Be64, Be32, ToBe64, ToBe32;
    ToBe64RoundTrip(a[4..12]);
    ToBe32RoundTrip(a[12..16]);
    assert a[4..] == a[4..12] + a[12..16];
  }

  function Encode(clientId: bv32, domainId: bv32, ctx: Ctx, key: Key): Option<Address> {
    if clientId > CLIENT_ID_MAX || domainId > DOMAIN_ID_MAX then None
    else
      var enc := Scramble(Payload(clientId, domainId), KeyCtxMix(ctx, key));
      Some(Assemble(enc, Tag32(enc, ctx, key)))
  }

  function Decode(a: Address, ctx: Ctx, key: Key): Option<(bv32, bv32)> {
    if TagOf(a) != Tag32(EncOf(a), ctx, key) then None
    else
      var p := Unscramble(EncOf(a), KeyCtxMix(ctx, key));
      if Padded(p) then Some((PayloadClient(p), PayloadDomain(p))) else None
  }

  /** Every address that decodes is the encoding of what it decodes to. */
  lemma DecodeThenEncode(a: Address, c: bv32, d: bv32, ctx: Ctx, key: Key)
    requires Decode(a, ctx, key) == Some((c, d))
    ensures Encode(c, d, ctx, key) == Some(PROXY_SRC_PREFIX + a[4..])
  {
    hide Scramble, Unscramble, Payload, PayloadClient, PayloadDomain, Padded, KeyCtxMix, Tag32, Assemble, EncOf, TagOf;
    var m := KeyCtxMix(ctx, key);
    ScrambleInverse(EncOf(a), m);
    PayloadCanonical(Unscramble(EncOf(a), m));
    PartsAssemble(a);
  }

  /** Every encoding decodes to what was encoded. */
  lemma EncodeThenDecode(a: Address, c: bv32, d: bv32, ctx: Ctx, key: Key)
    requires Encode(c, d, ctx, key) == Some(a)
    ensures Decode(a, ctx, key) == Some((c, d)) && HasPrefix(a, PROXY_SRC_PREFIX)
  {
    hide Scramble, Unscramble, Payload, PayloadClient, PayloadDomain, Padded, KeyCtxMix, Tag32, Assemble, EncOf, TagOf;
    var m := KeyCtxMix(ctx, key);
    var enc := Scramble(Payload(c, d), m);
    AssembleParts(enc, Tag32(enc, ctx, key));
    ScrambleInverse(Payload(c, d), m);
    PayloadRoundTrip(c, d);
  }

  lemma DecodeIgnoresPrefix(a: Address, ctx: Ctx, key: Key)
    ensures Decode(PROXY_SRC_PREFIX + a[4..], ctx, key) == Decode(a, ctx, key)
  {
    hide Unscramble, PayloadClient, PayloadDomain, Padded, KeyCtxMix, Tag32, Be64, Be32;
    var b: Address := PROXY_SRC_PREFIX + a[4..];
    assert b[4..12] == a[4..12] && b[12..16] == a[12..16];
  }

  /** `decode_proxy_src` and `encode_proxy_src` are exact partial inverses. The
      decoder does not look at the prefix, the encoder always writes it. */
  lemma ExactInverse(a: Address, c: bv32, d: bv32, ctx: Ctx, key: Key)
    ensures Decode(a, ctx, key) == Some((c, d)) <==> Encode(c, d, ctx, key) == Some(PROXY_SRC_PREFIX + a[4..])
    ensures HasPrefix(a, PROXY_SRC_PREFIX) ==>
              (Decode(a, ctx, key) == Some((c, d)) <==> Encode(c, d, ctx, key) == Some(a))
  {
    hide Encode, Decode;
    if Decode(a, ctx, key) == Some((c, d)) {
      DecodeThenEncode(a, c, d, ctx, key);
    }
    if Encode(c, d, ctx, key) == Some(PROXY_SRC_PREFIX + a[4..]) {
      EncodeThenDecode(PROXY_SRC_PREFIX + a[4..], c, d, ctx, key);
      DecodeIgnoresPrefix(a, ctx, key);
    }
    if HasPrefix(a, PROXY_SRC_PREFIX) {
      PrefixIsSlice(a, PROXY_SRC_PREFIX);
      assert a == PROXY_SRC_PREFIX + a[4..];
    }
  }

  /** Under one context and key, no two (client, domain) pairs share an address. */
  lemma EncodeInjective(c: bv32, d: bv32, c': bv32, d': bv32, ctx: Ctx, key: Key)
    requires Encode(c, d, ctx, key).Some? && Encode(c, d, ctx, key) == Encode(c', d', ctx, key)
    ensures c == c' && d == d'
  {
    hide Encode, Decode;
    EncodeThenDecode(Encode(c, d, ctx, key).value, c, d, ctx, key);
    EncodeThenDecode(Encode(c, d, ctx, key).value, c', d', ctx, key);
  }
}
