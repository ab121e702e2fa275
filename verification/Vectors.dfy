/** Literal vectors: the published ones that the tests of common/src/crypto.rs use for PRINCE
    and SipHash-2-4, and one for the address codec. Each is a chain of layers or rounds with
    the intermediate states written out. */
module Vectors {
  import opened Wrappers
  import opened Words
  import Splitmix
  import C = ProxySource
  import P = Prince
  import S = SipHash

  // -------------------------------------------------------------------------
  // The codec
  // -------------------------------------------------------------------------

  const KEY: C.Key := C.Key([0x00, 0x01, 0x02, 0x03, 0x04, 0x05, 0x06, 0x07, 0x08, 0x09, 0x0a, 0x0b, 0x0c, 0x0d, 0x0e, 0x0f],
                           [0x10, 0x11, 0x12, 0x13, 0x14, 0x15, 0x16, 0x17, 0x18, 0x19, 0x1a, 0x1b, 0x1c, 0x1d, 0x1e, 0x1f])

  const CTX: C.Ctx := C.Ctx(50000, 443, 6)

  lemma KeyWords()
    ensures Be64(KEY.princeKey[..8]) == 0x0001020304050607 && Be64(KEY.princeKey[8..]) == 0x08090a0b0c0d0e0f
    ensures Be64(KEY.siphashKey[..8]) == 0x1011121314151617 && Be64(KEY.siphashKey[8..]) == 0x18191a1b1c1d1e1f
  {
  }

  lemma KeyMaskVector()
    ensures C.KeyMask(KEY) == 0x8837738d41625e09 && C.TagMask(KEY) == 0x0d3bf3ea57720823
  {
    hide Be64;
    KeyWords();
  }

  lemma MixVectors()
    ensures Splitmix.Mix64(0xe1aeaf3e3f35556e) == 0xdee4607de56b3aa2
    ensures Splitmix.Mix64(0xb52e378915bc9724) == 0x4a9ea5ee9ff06672
  {
  }

  /** The keyed mask and the tag of one flow. */
  lemma MaskAndTagVector()
    ensures C.KeyCtxMix(CTX, KEY) == 0xdee4607de56b3aa2
    ensures C.Tag32(0x7b45c5d844ce9f07, CTX, KEY) == 0xd56ec39c
  {
    hide Splitmix.Mix64, C.KeyMask, C.TagMask, C.HashCtx;
    KeyMaskVector();
    C.HashCtxVectors();
    MixVectors();
  }

  lemma PayloadVector()
    ensures C.Payload(0x10000, 1) == 0x0100000000010000
  {
  }

  lemma RotationVector()
    ensures C.Rotation(0xdee4607de56b3aa2) == 34
  {
  }

  lemma TurnVector()
    ensures C.Turn(0x0100000000010000, 34) == 0x0004000004000000
  {
    assert (0x0100000000010000 as bv64).RotateLeft(34) == 0x0004000004000000;
  }

  lemma ScrambleVector()
    ensures C.Scramble(C.Payload(0x10000, 1), 0xdee4607de56b3aa2) == 0x7b45c5d844ce9f07
  {
    hide C.Payload, C.Rotation, C.Turn;
    PayloadVector();
    RotationVector();
    TurnVector();
  }

  /** The address of client 0x10000 and domain 1 for this flow. */
  lemma EncodeVector()
    ensures C.Encode(0x10000, 1, CTX, KEY)
         == Some([0x20, 0x01, 0x0d, 0xb8, 0x7b, 0x45, 0xc5, 0xd8, 0x44, 0xce, 0x9f, 0x07, 0xd5, 0x6e, 0xc3, 0x9c])
  {
    hide C.KeyCtxMix, C.Tag32, C.Scramble, C.Payload;
    MaskAndTagVector();
    ScrambleVector();
    assert ToBe64(0x7b45c5d844ce9f07) == [0x7b, 0x45, 0xc5, 0xd8, 0x44, 0xce, 0x9f, 0x07];
    assert ToBe32(0xd56ec39c) == [0xd5, 0x6e, 0xc3, 0x9c];
    hide ToBe64, ToBe32;
    assert C.Assemble(0x7b45c5d844ce9f07, 0xd56ec39c)
        == [0x20, 0x01, 0x0d, 0xb8, 0x7b, 0x45, 0xc5, 0xd8, 0x44, 0xce, 0x9f, 0x07, 0xd5, 0x6e, 0xc3, 0x9c];
  }

  // -------------------------------------------------------------------------
  // PRINCE
  // -------------------------------------------------------------------------

  const BLOCK: bv64 := 0x0123456789abcdef
  const K1: bv64 := 0xfedcba9876543210

  lemma ForwardKeys()
    ensures P.RoundKey(K1, 0) == 0xfedcba9876543210
    ensures P.RoundKey(K1, 1) == 0xedc530b675244154
    ensures P.RoundKey(K1, 2) == 0x5ad582ba5fcb03c0
    ensures P.RoundKey(K1, 3) == 0xf6f240009a1a5e99
    ensures P.RoundKey(K1, 4) == 0xbbf49b7e4e842167
    ensures P.RoundKey(K1, 5) == 0x4088dc5742bd3e7c
  {
  }

  lemma BackwardKeys()
    ensures P.RoundKey(K1, 6) == 0x8024f5e08bc16ea1
    ensures P.RoundKey(K1, 7) == 0x7b58b2c987f871ba
    ensures P.RoundKey(K1, 8) == 0x365e69b753660e44
    ensures P.RoundKey(K1, 9) == 0x9a79ab0d96b7531d
    ensures P.RoundKey(K1, 10) == 0x2d691901bc581189
    ensures P.RoundKey(K1, 11) == 0x3e70932fbf2862cd
  {
  }

  lemma MPrime1()
    ensures P.MPrime(0x4444444444444444) == 0x4444444444444444
  {
    hide P.MatMul;
    P.Hat0Nibbles(4, 4, 4, 4);
    P.Hat1Nibbles(4, 4, 4, 4);
    P.Hat1Nibbles(4, 4, 4, 4);
    P.Hat0Nibbles(4, 4, 4, 4);
  }

  lemma Sbox1()
    ensures P.SboxLayer(0xffffffffffffffff) == 0x4444444444444444
  {
  }

  lemma Round1()
    ensures P.ForwardRound(0xffffffffffffffff, 0xedc530b675244154) == 0xa98174f231600510
  {
    assert P.ShiftRows(0x4444444444444444) == 0x4444444444444444;
    assert P.AddKey(0x4444444444444444, 0xedc530b675244154) == 0xa98174f231600510;
    hide P.AddKey, P.ShiftRows, P.MPrime, P.SboxLayer;
    Sbox1();
    MPrime1();
  }

  lemma MPrime2()
    ensures P.MPrime(0x876f1a432f9bbcfb) == 0x9c30ec3d445aca9c
  {
    hide P.MatMul;
    P.Hat0Nibbles(11, 15, 12, 11);
    P.Hat1Nibbles(11, 9, 15, 2);
    P.Hat1Nibbles(3, 4, 10, 1);
    P.Hat0Nibbles(15, 6, 7, 8);
  }

  lemma Sbox2()
    ensures P.SboxLayer(0xa98174f231600510) == 0x876f1a432f9bbcfb
  {
  }

  lemma Round2()
    ensures P.ForwardRound(0xa98174f231600510, 0x5ad582ba5fcb03c0) == 0xc689662a15f6cffa
  {
    assert P.ShiftRows(0x9c30ec3d445aca9c) == 0x9c5ce4904a3dcc3a;
    assert P.AddKey(0x9c5ce4904a3dcc3a, 0x5ad582ba5fcb03c0) == 0xc689662a15f6cffa;
    hide P.AddKey, P.ShiftRows, P.MPrime, P.SboxLayer;
    Sbox2();
    MPrime2();
  }

  lemma MPrime3()
    ensures P.MPrime(0xe9679938fc49e448) == 0xd2182a212c33aa42
  {
    hide P.MatMul;
    P.Hat0Nibbles(8, 4, 4, 14);
    P.Hat1Nibbles(9, 4, 12, 15);
    P.Hat1Nibbles(8, 3, 9, 9);
    P.Hat0Nibbles(7, 6, 9, 14);
  }

  lemma Sbox3()
    ensures P.SboxLayer(0xc689662a15f6cffa) == 0xe9679938fc49e448
  {
  }

  lemma Round3()
    ensures P.ForwardRound(0xc689662a15f6cffa, 0xf6f240009a1a5e99) == 0x2cc06c48b00bfcba
  {
    assert P.ShiftRows(0xd2182a212c33aa42) == 0xda322c482a11a223;
    assert P.AddKey(0xda322c482a11a223, 0xf6f240009a1a5e99) == 0x2cc06c48b00bfcba;
    hide P.AddKey, P.ShiftRows, P.MPrime, P.SboxLayer;
    Sbox3();
    MPrime3();
  }

  lemma MPrime4()
    ensures P.MPrime(0x3eeb9ea60bb04e08) == 0xf227970539826c2a
  {
    hide P.MatMul;
    P.Hat0Nibbles(8, 0, 14, 4);
    P.Hat1Nibbles(0, 11, 11, 0);
    P.Hat1Nibbles(6, 10, 14, 9);
    P.Hat0Nibbles(11, 14, 14, 3);
  }

  lemma Sbox4()
    ensures P.SboxLayer(0x2cc06c48b00bfcba) == 0x3eeb9ea60bb04e08
  {
  }

  lemma Round4()
    ensures P.ForwardRound(0x2cc06c48b00bfcba, 0xbbf49b7e4e842167) == 0x4c7e025972a14365
  {
    assert P.ShiftRows(0xf227970539826c2a) == 0xf78a99273c256202;
    assert P.AddKey(0xf78a99273c256202, 0xbbf49b7e4e842167) == 0x4c7e025972a14365;
    hide P.AddKey, P.ShiftRows, P.MPrime, P.SboxLayer;
    Sbox4();
    MPrime4();
  }

  lemma MPrime5()
    ensures P.MPrime(0xae1db3c7138fa29c) == 0x53e01c4af864563d
  {
    hide P.MatMul;
    P.Hat0Nibbles(12, 9, 2, 10);
    P.Hat1Nibbles(15, 8, 3, 1);
    P.Hat1Nibbles(7, 12, 3, 11);
    P.Hat0Nibbles(13, 1, 14, 10);
  }

  lemma Sbox5()
    ensures P.SboxLayer(0x4c7e025972a14365) == 0xae1db3c7138fa29c
  {
  }

  lemma Round5()
    ensures P.ForwardRound(0x4c7e025972a14365, 0x4088dc5742bd3e7c) == 0x1ce5c467b4576d38
  {
    assert P.ShiftRows(0x53e01c4af864563d) == 0x5c6d1830f6ea5344;
    assert P.AddKey(0x5c6d1830f6ea5344, 0x4088dc5742bd3e7c) == 0x1ce5c467b4576d38;
    hide P.AddKey, P.ShiftRows, P.MPrime, P.SboxLayer;
    Sbox5();
    MPrime5();
  }

  lemma MPrimeMiddle()
    ensures P.MPrime(0xfedcea910ac19526) == 0xcfedb6455fb668db
  {
    hide P.MatMul;
    P.Hat0Nibbles(6, 2, 5, 9);
    P.Hat1Nibbles(1, 12, 10, 0);
    P.Hat1Nibbles(1, 9, 10, 14);
    P.Hat0Nibbles(12, 13, 14, 15);
  }

  lemma SboxMiddle()
    ensures P.SboxLayer(0x1ce5c467b4576d38) == 0xfedcea910ac19526
  {
  }

  lemma SboxInvMiddle()
    ensures P.SboxInvLayer(0xcfedb6455fb668db) == 0x51ce08fdd1088ae0
  {
  }

  lemma MiddleRound()
    ensures P.Middle(0x1ce5c467b4576d38) == 0x51ce08fdd1088ae0
  {
    hide P.MPrime, P.SboxLayer, P.SboxInvLayer;
    SboxMiddle();
    SboxInvMiddle();
    MPrimeMiddle();
  }

  lemma MPrime6()
    ensures P.MPrime(0xd4cdf1495de1ea1a) == 0x544df06a3ea070d5
  {
    hide P.MatMul;
    P.Hat0Nibbles(10, 1, 10, 14);
    P.Hat1Nibbles(1, 14, 13, 5);
    P.Hat1Nibbles(9, 4, 1, 15);
    P.Hat0Nibbles(13, 12, 4, 13);
  }

  lemma SboxInv6()
    ensures P.SboxInvLayer(0x544df06a3ea070d5) == 0xdffe1b842c4b9bed
  {
  }

  lemma Round6()
    ensures P.BackwardRound(0x51ce08fdd1088ae0, 0x8024f5e08bc16ea1) == 0xdffe1b842c4b9bed
  {
    assert P.AddKey(0x51ce08fdd1088ae0, 0x8024f5e08bc16ea1) == 0xd1eafd1d5ac9e441;
    assert P.ShiftRowsInv(0xd1eafd1d5ac9e441) == 0xd4cdf1495de1ea1a;
    hide P.AddKey, P.ShiftRowsInv, P.MPrime, P.SboxInvLayer;
    MPrime6();
    SboxInv6();
  }

  lemma MPrime7()
    ensures P.MPrime(0xaabda453a9a7eb46) == 0xdd8e9ae5e145f109
  {
    hide P.MatMul;
    P.Hat0Nibbles(6, 4, 11, 14);
    P.Hat1Nibbles(7, 10, 9, 10);
    P.Hat1Nibbles(3, 5, 4, 10);
    P.Hat0Nibbles(13, 11, 10, 10);
  }

  lemma SboxInv7()
    ensures P.SboxInvLayer(0xdd8e9ae5e145f109) == 0xeeac64cdc7fd17b6
  {
  }

  lemma Round7()
    ensures P.BackwardRound(0xdffe1b842c4b9bed, 0x7b58b2c987f871ba) == 0xeeac64cdc7fd17b6
  {
    assert P.AddKey(0xdffe1b842c4b9bed, 0x7b58b2c987f871ba) == 0xa4a6a94dabb3ea57;
    assert P.ShiftRowsInv(0xa4a6a94dabb3ea57) == 0xaabda453a9a7eb46;
    hide P.AddKey, P.ShiftRowsInv, P.MPrime, P.SboxInvLayer;
    MPrime7();
    SboxInv7();
  }

  lemma MPrime8()
    ensures P.MPrime(0xd99a08fb9df21472) == 0xfaec542f80676107
  {
    hide P.MatMul;
    P.Hat0Nibbles(2, 7, 4, 1);
    P.Hat1Nibbles(2, 15, 13, 9);
    P.Hat1Nibbles(11, 15, 8, 0);
    P.Hat0Nibbles(10, 9, 9, 13);
  }

  lemma SboxInv8()
    ensures P.SboxInvLayer(0xfaec542f80676107) == 0x14c5df31ab8987b9
  {
  }

  lemma Round8()
    ensures P.BackwardRound(0xeeac64cdc7fd17b6, 0x365e69b753660e44) == 0x14c5df31ab8987b9
  {
    assert P.AddKey(0xeeac64cdc7fd17b6, 0x365e69b753660e44) == 0xd8f20d7a949b19f2;
    assert P.ShiftRowsInv(0xd8f20d7a949b19f2) == 0xd99a08fb9df21472;
    hide P.AddKey, P.ShiftRowsInv, P.MPrime, P.SboxInvLayer;
    MPrime8();
    SboxInv8();
  }

  lemma MPrime9()
    ensures P.MPrime(0x843c7eae34b4dd3c) == 0xda73336b969e12a6
  {
    hide P.MatMul;
    P.Hat0Nibbles(12, 3, 13, 13);
    P.Hat1Nibbles(4, 11, 4, 3);
    P.Hat1Nibbles(14, 10, 14, 7);
    P.Hat0Nibbles(12, 3, 4, 8);
  }

  lemma SboxInv9()
    ensures P.SboxInvLayer(0xda73336b969e12a6) == 0xe4922280686c7348
  {
  }

  lemma Round9()
    ensures P.BackwardRound(0x14c5df31ab8987b9, 0x9a79ab0d96b7531d) == 0xe4922280686c7348
  {
    assert P.AddKey(0x14c5df31ab8987b9, 0x9a79ab0d96b7531d) == 0x8ebc743c3d3ed4a4;
    assert P.ShiftRowsInv(0x8ebc743c3d3ed4a4) == 0x843c7eae34b4dd3c;
    hide P.AddKey, P.ShiftRowsInv, P.MPrime, P.SboxInvLayer;
    MPrime9();
    SboxInv9();
  }

  lemma MPrime10()
    ensures P.MPrime(0xc23139c4dbf1648b) == 0x7bcc2df2f1534db3
  {
    hide P.MatMul;
    P.Hat0Nibbles(11, 8, 4, 6);
    P.Hat1Nibbles(1, 15, 11, 13);
    P.Hat1Nibbles(4, 12, 9, 3);
    P.Hat0Nibbles(1, 3, 2, 12);
  }

  lemma SboxInv10()
    ensures P.SboxInvLayer(0x7bcc2df2f1534db3) == 0x90553e1317d2fe02
  {
  }

  lemma Round10()
    ensures P.BackwardRound(0xe4922280686c7348, 0x2d691901bc581189) == 0x90553e1317d2fe02
  {
    assert P.AddKey(0xe4922280686c7348, 0x2d691901bc581189) == 0xc9fb3b81d43462c1;
    assert P.ShiftRowsInv(0xc9fb3b81d43462c1) == 0xc23139c4dbf1648b;
    hide P.AddKey, P.ShiftRowsInv, P.MPrime, P.SboxInvLayer;
    MPrime10();
    SboxInv10();
  }

  lemma ForwardVector()
    ensures P.Forward(BLOCK, K1, 5) == 0x1ce5c467b4576d38
  {
    ForwardKeys();
    hide P.RoundKey, P.ForwardRound, P.Forward;
    assert P.AddKey(BLOCK, 0xfedcba9876543210) == 0xffffffffffffffff;
    hide P.AddKey;
    P.ForwardStep(BLOCK, K1, 0);
    Round1();
    P.ForwardStep(BLOCK, K1, 1);
    Round2();
    P.ForwardStep(BLOCK, K1, 2);
    Round3();
    P.ForwardStep(BLOCK, K1, 3);
    Round4();
    P.ForwardStep(BLOCK, K1, 4);
    Round5();
  }

  lemma BackwardVector()
    ensures P.Backward(0x51ce08fdd1088ae0, K1, 6) == 0xae25ad3ca8fa9ccf
  {
    BackwardKeys();
    hide P.RoundKey, P.BackwardRound, P.Backward;
    assert P.AddKey(0x90553e1317d2fe02, 0x3e70932fbf2862cd) == 0xae25ad3ca8fa9ccf;
    hide P.AddKey;
    P.BackwardStep(0x51ce08fdd1088ae0, K1, 6);
    Round6();
    P.BackwardStep(0xdffe1b842c4b9bed, K1, 7);
    Round7();
    P.BackwardStep(0xeeac64cdc7fd17b6, K1, 8);
    Round8();
    P.BackwardStep(0x14c5df31ab8987b9, K1, 9);
    Round9();
    P.BackwardStep(0xe4922280686c7348, K1, 10);
    Round10();
    P.BackwardStep(0x90553e1317d2fe02, K1, 11);
  }

  lemma CoreVector()
    ensures P.Core(BLOCK, K1) == 0xae25ad3ca8fa9ccf
  {
    hide P.Forward, P.Backward, P.Middle;
    ForwardVector();
    MiddleRound();
    BackwardVector();
  }

  /** The third vector of the PRINCE paper. */
  lemma PrinceVector()
    ensures P.Encrypt(0x0123456789abcdef, [0x00, 0x00, 0x00, 0x00, 0x00, 0x00, 0x00, 0x00, 0xfe, 0xdc, 0xba, 0x98, 0x76, 0x54, 0x32, 0x10]) == 0xae25ad3ca8fa9ccf
  {
    var key: P.Key := [0x00, 0x00, 0x00, 0x00, 0x00, 0x00, 0x00, 0x00, 0xfe, 0xdc, 0xba, 0x98, 0x76, 0x54, 0x32, 0x10];
    assert P.K0(key) == 0 && P.K1(key) == K1 && P.K0Prime(0) == 0;
    hide P.K0, P.K1, P.K0Prime;
    assert P.AddKey(BLOCK, 0) == BLOCK && P.AddKey(0xae25ad3ca8fa9ccf, 0) == 0xae25ad3ca8fa9ccf;
    hide P.AddKey, P.Core;
    CoreVector();
  }

  // -------------------------------------------------------------------------
  // SipHash-2-4
  // -------------------------------------------------------------------------

  lemma SipRound0()
    ensures S.Round(S.State(0x7469686173716475, 0x6b617f6d656e6665, 0x6b7f62616d677361, 0x7c6d6c6a717c6d7b))
         == S.State(0x64668a929363847f, 0x4ed232083d9aa8dc, 0xf2f74892d8141a2e, 0x9290f9810552f4a8)
  {
  }

  lemma SipRound1()
    ensures S.Round(S.State(0x64668a929363847f, 0x4ed232083d9aa8dc, 0xf2f74892d8141a2e, 0x9290f9810552f4a8))
         == S.State(0x4d07749cdd0858e0, 0x0d52f6f62a4f59a4, 0x634cb3577b01fd3d, 0xa5224d6f55c7d9c8)
  {
  }

  lemma SipRound2()
    ensures S.Round(S.State(0x4a017198de0a59e0, 0x0d52f6f62a4f59a4, 0x634cb3577b01fd3d, 0xaa2c40635ecdd0c0))
         == S.State(0x557560fb6063d060, 0x4c8e675bd961133e, 0xbd3d002b1703a181, 0xfb9441179a4a7315)
  {
  }

  lemma SipRound3()
    ensures S.Round(S.State(0x557560fb6063d060, 0x4c8e675bd961133e, 0xbd3d002b1703a181, 0xfb9441179a4a7315))
         == S.State(0x338bbea7645fb759, 0x414fc3fb98efe374, 0xccf13ea527b9f4bd, 0x5293f5da84008f82)
  {
  }

  lemma SipRound4()
    ensures S.Round(S.State(0x3c85b3ab6f55be51, 0x414fc3fb98efe374, 0xccf13ea527b9f442, 0x5293f5da84008f82))
         == S.State(0xf2a55244a20e48fe, 0xac5ad16ccc3ca6e4, 0x9fe5adb0a52f393a, 0xfd41d55e88f30308)
  {
  }

  lemma SipRound5()
    ensures S.Round(S.State(0xf2a55244a20e48fe, 0xac5ad16ccc3ca6e4, 0x9fe5adb0a52f393a, 0xfd41d55e88f30308))
         == S.State(0xb6c3fbdecc2ae4b4, 0x1638c86adc6b3cf0, 0x28b8b6ab62553d46, 0xc9465e86ec43eb95)
  {
  }

  lemma SipRound6()
    ensures S.Round(S.State(0xb6c3fbdecc2ae4b4, 0x1638c86adc6b3cf0, 0x28b8b6ab62553d46, 0xc9465e86ec43eb95))
         == S.State(0x58101b167209a5e6, 0xf8792ae75b66e7dd, 0x1da14c3ec7f0b4f7, 0x7624ba8a41bc4ad9)
  {
  }

  lemma SipRound7()
    ensures S.Round(S.State(0x58101b167209a5e6, 0xf8792ae75b66e7dd, 0x1da14c3ec7f0b4f7, 0x7624ba8a41bc4ad9))
         == S.State(0xf6bcd53893fecff1, 0x54b9964c7ea0d937, 0x1b38329c099bb55a, 0x1814bb89ad7be679)
  {
  }

  lemma Compress0()
    ensures S.Compress(S.State(0x7469686173716475, 0x6b617f6d656e6665, 0x6b7f62616d677361, 0x7b6b696e727e6c7b), 0x0706050403020100)
         == S.State(0x4a017198de0a59e0, 0x0d52f6f62a4f59a4, 0x634cb3577b01fd3d, 0xa5224d6f55c7d9c8)
  {
    hide S.Round;
    SipRound0();
    SipRound1();
  }

  lemma Compress1()
    ensures S.Compress(S.State(0x4a017198de0a59e0, 0x0d52f6f62a4f59a4, 0x634cb3577b01fd3d, 0xa5224d6f55c7d9c8), 0x0f0e0d0c0b0a0908)
         == S.State(0x3c85b3ab6f55be51, 0x414fc3fb98efe374, 0xccf13ea527b9f4bd, 0x5293f5da84008f82)
  {
    hide S.Round;
    SipRound2();
    SipRound3();
  }

  lemma FinalizeVector()
    ensures S.Finalize(S.State(0x3c85b3ab6f55be51, 0x414fc3fb98efe374, 0xccf13ea527b9f4bd, 0x5293f5da84008f82)) == 0xa129ca6149be45e5
  {
    hide S.Round;
    SipRound4();
    SipRound5();
    SipRound6();
    SipRound7();
  }

  const SIP_KEY: S.Key := [0x00, 0x01, 0x02, 0x03, 0x04, 0x05, 0x06, 0x07, 0x08, 0x09, 0x0a, 0x0b, 0x0c, 0x0d, 0x0e, 0x0f]
  const MESSAGE: seq<Byte> := [0x00, 0x01, 0x02, 0x03, 0x04, 0x05, 0x06, 0x07, 0x08, 0x09, 0x0a, 0x0b, 0x0c, 0x0d, 0x0e]

  lemma MessageWords()
    ensures S.Init(SIP_KEY) == S.State(0x7469686173716475, 0x6b617f6d656e6665, 0x6b7f62616d677361, 0x7b6b696e727e6c7b)
    ensures Le64(MESSAGE[..8]) == 0x0706050403020100
  {
    assert SIP_KEY[..8] == [0x00, 0x01, 0x02, 0x03, 0x04, 0x05, 0x06, 0x07] && SIP_KEY[8..] == [0x08, 0x09, 0x0a, 0x0b, 0x0c, 0x0d, 0x0e, 0x0f];
    assert MESSAGE[..8] == [0x00, 0x01, 0x02, 0x03, 0x04, 0x05, 0x06, 0x07];
  }

  lemma LastMessageWord()
    ensures S.LastWord(MESSAGE[8..], 15) == 0x0f0e0d0c0b0a0908
  {
    assert MESSAGE[8..] + seq(0, _ => 0) + [15] == [0x08, 0x09, 0x0a, 0x0b, 0x0c, 0x0d, 0x0e, 0x0f];
  }

  /** The reference vector for fifteen bytes. */
  lemma SipHashVector()
    ensures S.Hash(SIP_KEY, MESSAGE) == 0xa129ca6149be45e5
  {
    hide S.Compress, S.Finalize, S.Init, S.LastWord, Le64;
    MessageWords();
    LastMessageWord();
    Compress0();
    Compress1();
    FinalizeVector();
    var rest := MESSAGE[8..];
    assert S.Absorb(S.Compress(S.Init(SIP_KEY), Le64(MESSAGE[..8])), rest, 15)
        == S.Compress(S.Compress(S.Init(SIP_KEY), Le64(MESSAGE[..8])), S.LastWord(rest, 15));
  }
}
