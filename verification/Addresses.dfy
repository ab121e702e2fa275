/** The IPv6 address plan of contract.toml and the address builders of common/src/lib.rs. */
module Addresses {
  import opened Words

  type Address = a: seq<Byte> | |a| == 16 witness seq(16, _ => 0)
  /** A domain id as a map key. */
  datatype DomainId = DomainId(bits: bv32)

  /** NAT_MAP: domain id to origin. */
  type NatMap = map<DomainId, Address>

  type Prefix = p: seq<Byte> | |p| == 4 witness seq(4, _ => 0)

  const SYNTHETIC_PREFIX: Prefix := [0xfd, 0x00, 0xab, 0xcd]
  const PROXY_SRC_PREFIX: Prefix := [0x20, 0x01, 0x0d, 0xb8]
  const VIP_POOL_DISCRIMINATOR: Prefix := [0x00, 0x00, 0x00, 0x01]

  predicate HasPrefix(a: Address, p: Prefix) {
    a[0] == p[0] && a[1] == p[1] && a[2] == p[2] && a[3] == p[3]
  }

  function DomainIdFromIpv6(a: Address): bv32 {
    Be32(a[4..8])
  }

  /** The last four bytes of a client VIP. */
  function ClientIdFromIpv6(a: Address): bv32 {
    Be32(a[12..16])
  }

  function SyntheticIpv6(domainId: bv32): Address {
    SYNTHETIC_PREFIX + ToBe32(domainId) + [0, 0, 0, 0, 0, 0, 0, 1]
  }

  function ClientVip(clientId: bv32): Address {
    SYNTHETIC_PREFIX + VIP_POOL_DISCRIMINATOR + [0, 0, 0, 0] + ToBe32(clientId)
  }

  lemma PrefixIsSlice(a: Address, p: Prefix)
    ensures HasPrefix(a, p) <==> a[..4] == p
  {
    if HasPrefix(a, p) {
      assert forall i :: 0 <= i < 4 ==> a[..4][i] == p[i];
    }
  }

  /** `domain_id_from_ipv6` inverts `synthetic_ipv6`. */
  lemma DomainIdOfSynthetic(domainId: bv32)
    ensures DomainIdFromIpv6(SyntheticIpv6(domainId)) == domainId
    ensures HasPrefix(SyntheticIpv6(domainId), SYNTHETIC_PREFIX)
  {
    hide Be32, ToBe32;
    assert SyntheticIpv6(domainId)[4..8] == ToBe32(domainId);
    Be32RoundTrip(domainId);
  }

  lemma ClientIdOfVip(clientId: bv32)
    ensures ClientIdFromIpv6(ClientVip(clientId)) == clientId
  {
    hide Be32, ToBe32;
    assert ClientVip(clientId)[12..16] == ToBe32(clientId);
    Be32RoundTrip(clientId);
  }

  lemma SyntheticInjective(d: bv32, e: bv32)
    requires SyntheticIpv6(d) == SyntheticIpv6(e)
    ensures d == e
  {
    hide SyntheticIpv6, DomainIdFromIpv6;
    DomainIdOfSynthetic(d);
    DomainIdOfSynthetic(e);
  }

  /** The addresses that `synthetic_ipv6` produces: the prefix and the `::1` tail. */
  lemma SyntheticRange(a: Address)
    ensures SyntheticIpv6(DomainIdFromIpv6(a)) == a <==> a[..4] == [0xfd, 0x00, 0xab, 0xcd] && a[8..] == [0, 0, 0, 0, 0, 0, 0, 1]
  {
    hide Be32, ToBe32;
    ToBe32RoundTrip(a[4..8]);
    var b := SyntheticIpv6(DomainIdFromIpv6(a));
    assert b[..4] == SYNTHETIC_PREFIX && b[4..8] == a[4..8] && b[8..] == [0, 0, 0, 0, 0, 0, 0, 1];
    assert a == a[..4] + a[4..8] + a[8..];
  }

  /** The addresses that `client_vip_from_id24` produces. */
  lemma VipRange(a: Address)
    ensures ClientVip(ClientIdFromIpv6(a)) == a <==> a[..12] == [0xfd, 0x00, 0xab, 0xcd, 0, 0, 0, 1, 0, 0, 0, 0]
  {
    hide Be32, ToBe32;
    ToBe32RoundTrip(a[12..16]);
    var b := ClientVip(ClientIdFromIpv6(a));
    assert b[..12] == SYNTHETIC_PREFIX + VIP_POOL_DISCRIMINATOR + [0, 0, 0, 0] && b[12..] == a[12..16];
    assert a == a[..12] + a[12..16];
  }

  lemma OneInBe32(x: bv32)
    ensures ToBe32(x) == [0, 0, 0, 1] <==> x == 1
  {
    ToBe32RoundTrip([0, 0, 0, 1]);
    Be32RoundTrip(x);
  }

  lemma EqualByQuarters(a: Address, b: Address)
    ensures a == b <==> a[..4] == b[..4] && a[4..8] == b[4..8] && a[8..12] == b[8..12] && a[12..] == b[12..]
  {
    assert a == a[..4] + a[4..8] + a[8..12] + a[12..];
    assert b == b[..4] + b[4..8] + b[8..12] + b[12..];
  }

  lemma SyntheticQuarters(domainId: bv32)
    ensures var a := SyntheticIpv6(domainId);
            a[..4] == SYNTHETIC_PREFIX && a[4..8] == ToBe32(domainId) && a[8..12] == [0, 0, 0, 0] && a[12..] == [0, 0, 0, 1]
  {
    hide ToBe32;
  }

  lemma VipQuarters(clientId: bv32)
    ensures var a := ClientVip(clientId);
            a[..4] == SYNTHETIC_PREFIX && a[4..8] == [0, 0, 0, 1] && a[8..12] == [0, 0, 0, 0] && a[12..] == ToBe32(clientId)
  {
    hide ToBe32;
  }

  /** Synthetic addresses and client VIPs share the prefix and meet in exactly one address. */
  lemma SyntheticMeetsVip(domainId: bv32, clientId: bv32)
    ensures SyntheticIpv6(domainId) == ClientVip(clientId) <==> domainId == 1 && clientId == 1
  {
    hide ToBe32, SyntheticIpv6, ClientVip;
    OneInBe32(domainId);
    OneInBe32(clientId);
    SyntheticQuarters(domainId);
    VipQuarters(clientId);
    EqualByQuarters(SyntheticIpv6(domainId), ClientVip(clientId));
  }

  lemma PoolNeverMeetsSynthetic(domainId: bv32, clientId: bv32)
    requires 0x0001_0000 <= clientId
    ensures SyntheticIpv6(domainId) != ClientVip(clientId)
  {
    hide SyntheticIpv6, ClientVip;
    SyntheticMeetsVip(domainId, clientId);
  }
}
