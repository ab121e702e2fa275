/** The splitmix64 finalizer, `mix64` in common/src/lib.rs and the tail of
    `hash_ctx` in common/src/crypto.rs, and its explicit two-sided inverse. */
module Splitmix {

  /** `x ^= x >> 30` and its inverse: three shifts leave the word. */
  function XorShr30(x: bv64): bv64 {
    x ^ (x >> 30)
  }

  function UnXorShr30(y: bv64): bv64 {
    y ^ (y >> 30) ^ (y >> 60)
  }

  lemma XorShr30Raw(x: bv64)
    ensures XorShr30(x) == x ^ (x >> 30) && UnXorShr30(x ^ (x >> 30)) == x
    ensures UnXorShr30(x) == x ^ (x >> 30) ^ (x >> 60) && XorShr30(x ^ (x >> 30) ^ (x >> 60)) == x
  {
  }

  lemma XorShr30Inverse(x: bv64)
    ensures UnXorShr30(XorShr30(x)) == x && XorShr30(UnXorShr30(x)) == x
  {
    hide XorShr30, UnXorShr30;
    XorShr30Raw(x);
  }

  /** `x ^= x >> 27` and its inverse: three shifts leave the word. */
  function XorShr27(x: bv64): bv64 {
    x ^ (x >> 27)
  }

  function UnXorShr27(y: bv64): bv64 {
    y ^ (y >> 27) ^ (y >> 54)
  }

  lemma XorShr27Raw(x: bv64)
    ensures XorShr27(x) == x ^ (x >> 27) && UnXorShr27(x ^ (x >> 27)) == x
    ensures UnXorShr27(x) == x ^ (x >> 27) ^ (x >> 54) && XorShr27(x ^ (x >> 27) ^ (x >> 54)) == x
  {
  }

  lemma XorShr27Inverse(x: bv64)
    ensures UnXorShr27(XorShr27(x)) == x && XorShr27(UnXorShr27(x)) == x
  {
    hide XorShr27, UnXorShr27;
    XorShr27Raw(x);
  }

  /** `x ^= x >> 31` and its inverse: three shifts leave the word. */
  function XorShr31(x: bv64): bv64 {
    x ^ (x >> 31)
  }

  function UnXorShr31(y: bv64): bv64 {
    y ^ (y >> 31) ^ (y >> 62)
  }

  lemma XorShr31Raw(x: bv64)
    ensures XorShr31(x) == x ^ (x >> 31) && UnXorShr31(x ^ (x >> 31)) == x
    ensures UnXorShr31(x) == x ^ (x >> 31) ^ (x >> 62) && XorShr31(x ^ (x >> 31) ^ (x >> 62)) == x
  {
  }

  lemma XorShr31Inverse(x: bv64)
    ensures UnXorShr31(XorShr31(x)) == x && XorShr31(UnXorShr31(x)) == x
  {
    hide XorShr31, UnXorShr31;
    XorShr31Raw(x);
  }

  /** `x.wrapping_mul(0xbf58476d1ce4e5b9)`; the second constant is the inverse of the first modulo 2^64. */
  function MulA(x: bv64): bv64 {
    x * 0xbf58476d1ce4e5b9
  }

  function UnMulA(y: bv64): bv64 {
    y * 0x96de1b173f119089
  }

  lemma MulARaw(x: bv64)
    ensures MulA(x) == x * 0xbf58476d1ce4e5b9 && UnMulA(x * 0xbf58476d1ce4e5b9) == x
    ensures UnMulA(x) == x * 0x96de1b173f119089 && MulA(x * 0x96de1b173f119089) == x
  {
  }

  lemma MulAInverse(x: bv64)
    ensures UnMulA(MulA(x)) == x && MulA(UnMulA(x)) == x
  {
    hide MulA, UnMulA;
    MulARaw(x);
  }

  /** `x.wrapping_mul(0x94d049bb133111eb)`; the second constant is the inverse of the first modulo 2^64. */
  function MulB(x: bv64): bv64 {
    x * 0x94d049bb133111eb
  }

  function UnMulB(y: bv64): bv64 {
    y * 0x319642b2d24d8ec3
  }

  lemma MulBRaw(x: bv64)
    ensures MulB(x) == x * 0x94d049bb133111eb && UnMulB(x * 0x94d049bb133111eb) == x
    ensures UnMulB(x) == x * 0x319642b2d24d8ec3 && MulB(x * 0x319642b2d24d8ec3) == x
  {
  }

  lemma MulBInverse(x: bv64)
    ensures UnMulB(MulB(x)) == x && MulB(UnMulB(x)) == x
  {
    hide MulB, UnMulB;
    MulBRaw(x);
  }

  function Mix64(x: bv64): bv64 {
    XorShr31(MulB(XorShr27(MulA(XorShr30(x)))))
  }

  function Unmix64(y: bv64): bv64 {
    UnXorShr30(UnMulA(UnXorShr27(UnMulB(UnXorShr31(y)))))
  }

  lemma UnmixMix(x: bv64)
    ensures Unmix64(Mix64(x)) == x
  {
    hide XorShr30, XorShr27, XorShr31, UnXorShr30, UnXorShr27, UnXorShr31, MulA, MulB, UnMulA, UnMulB;
    var a := XorShr30(x);
    var b := MulA(a);
    var c := XorShr27(b);
    XorShr31Inverse(MulB(c));
    MulBInverse(c);
    XorShr27Inverse(b);
    MulAInverse(a);
    XorShr30Inverse(x);
  }

  lemma MixUnmix(y: bv64)
    ensures Mix64(Unmix64(y)) == y
  {
    hide XorShr30, XorShr27, XorShr31, UnXorShr30, UnXorShr27, UnXorShr31, MulA, MulB, UnMulA, UnMulB;
    var d := UnXorShr31(y);
    var c := UnMulB(d);
    var b := UnXorShr27(c);
    XorShr30Inverse(UnMulA(b));
    MulAInverse(b);
    XorShr27Inverse(c);
    MulBInverse(d);
    XorShr31Inverse(y);
  }

  lemma MixInjective(x: bv64, y: bv64)
    requires Mix64(x) == Mix64(y)
    ensures x == y
  {
    hide Mix64, Unmix64;
    UnmixMix(x);
    UnmixMix(y);
  }

  method ComputeMix64(input: bv64) returns (x: bv64)
    ensures x == Mix64(input)
  {
    hide XorShr30, XorShr27, XorShr31, MulA, MulB;
    x := input;
    x := XorShr30(x);
    x := MulA(x);
    x := XorShr27(x);
    x := MulB(x);
    x := XorShr31(x);
  }
}
