/** SipHash-2-4 of common/src/crypto.rs: the fixed 17-byte form against the
    block-by-block definition of Aumasson and Bernstein. */
module SipHash {
  import opened Words

  type Key = k: seq<Byte> | |k| == 16 witness seq(16, _ => 0)

  datatype State = State(v0: bv64, v1: bv64, v2: bv64, v3: bv64)

  // -------------------------------------------------------------------------
  // The round
  // -------------------------------------------------------------------------

  function Add(a: bv64, b: bv64): bv64 { a + b }
  function Sub(a: bv64, b: bv64): bv64 { a - b }
  function Xor(a: bv64, b: bv64): bv64 { a ^ b }

  /** The rotation amounts of a round. */
  predicate IsRotation(r: nat) {
    r == 13 || r == 16 || r == 17 || r == 21
  }

  function Rotate(x: bv64, r: nat): bv64
    requires IsRotation(r)
  {
    if r == 13 then x.RotateLeft(13) else if r == 16 then x.RotateLeft(16)
    else if r == 17 then x.RotateLeft(17) else x.RotateLeft(21)
  }

  function Unrotate(x: bv64, r: nat): bv64
    requires IsRotation(r)
  {
    if r == 13 then x.RotateRight(13) else if r == 16 then x.RotateRight(16)
    else if r == 17 then x.RotateRight(17) else x.RotateRight(21)
  }

  /** Add, rotate, xor: the pattern that occurs four times in a round. */
  function Mix(a: bv64, b: bv64, r: nat): (bv64, bv64)
    requires IsRotation(r)
  {
    (Add(a, b), Xor(Rotate(b, r), Add(a, b)))
  }

  function Unmix(s: bv64, t: bv64, r: nat): (bv64, bv64)
    requires IsRotation(r)
  {
    (Sub(s, Unrotate(Xor(t, s), r)), Unrotate(Xor(t, s), r))
  }

  function Swap(x: bv64): bv64 {
    x.RotateLeft(32)
  }

  function Round(s: State): State {
    var (a0, a1) := Mix(s.v0, s.v1, 13);
    var (a2, a3) := Mix(s.v2, s.v3, 16);
    var (b0, b3) := Mix(Swap(a0), a3, 21);
    var (b2, b1) := Mix(a2, a1, 17);
    State(b0, b1, Swap(b2), b3)
  }

  function Unround(s: State): State {
    var (a2, a1) := Unmix(Swap(s.v2), s.v1, 17);
    var (a0, a3) := Unmix(s.v0, s.v3, 21);
    var (v2, v3) := Unmix(a2, a3, 16);
    var (v0, v1) := Unmix(Swap(a0), a1, 13);
    State(v0, v1, v2, v3)
  }

  lemma AddSubAre(a: bv64, b: bv64)
    ensures Add(a, b) == a + b && Sub(a, b) == a - b
  {
  }

  lemma SubOfSum(a: bv64, b: bv64)
    ensures Sub(a + b, b) == a
  {
    assert (a + b) - b == a;
  }

  lemma AddOfDifference(a: bv64, b: bv64)
    ensures Add(a - b, b) == a
  {
    assert (a - b) + b == a;
  }

  lemma AddSub(a: bv64, b: bv64)
    ensures Sub(Add(a, b), b) == a && Add(Sub(a, b), b) == a
  {
    hide Add, Sub;
    AddSubAre(a, b);
    SubOfSum(a, b);
    AddOfDifference(a, b);
  }

  lemma XorTwice(a: bv64, b: bv64)
    ensures Xor(Xor(a, b), b) == a
  {
  }

  lemma Rotate13Raw(x: bv64)
    ensures Rotate(x, 13) == x.RotateLeft(13) && Unrotate(x, 13) == x.RotateRight(13)
    ensures Unrotate(x.RotateLeft(13), 13) == x && Rotate(x.RotateRight(13), 13) == x
  {
  }

  lemma Rotate16Raw(x: bv64)
    ensures Rotate(x, 16) == x.RotateLeft(16) && Unrotate(x, 16) == x.RotateRight(16)
    ensures Unrotate(x.RotateLeft(16), 16) == x && Rotate(x.RotateRight(16), 16) == x
  {
  }

  lemma Rotate17Raw(x: bv64)
    ensures Rotate(x, 17) == x.RotateLeft(17) && Unrotate(x, 17) == x.RotateRight(17)
    ensures Unrotate(x.RotateLeft(17), 17) == x && Rotate(x.RotateRight(17), 17) == x
  {
  }

  lemma Rotate21Raw(x: bv64)
    ensures Rotate(x, 21) == x.RotateLeft(21) && Unrotate(x, 21) == x.RotateRight(21)
    ensures Unrotate(x.RotateLeft(21), 21) == x && Rotate(x.RotateRight(21), 21) == x
  {
  }

  lemma RotateBack(x: bv64, r: nat)
    requires IsRotation(r)
    ensures Unrotate(Rotate(x, r), r) == x && Rotate(Unrotate(x, r), r) == x
  {
    hide Rotate, Unrotate;
    Rotate13Raw(x);
    Rotate16Raw(x);
    Rotate17Raw(x);
    Rotate21Raw(x);
  }

  lemma MixInverse(a: bv64, b: bv64, r: nat)
    requires IsRotation(r)
    ensures var m := Mix(a, b, r); Unmix(m.0, m.1, r) == (a, b)
    ensures var u := Unmix(a, b, r); Mix(u.0, u.1, r) == (a, b)
  {
    hide Add, Sub, Xor, Rotate, Unrotate;
    XorTwice(Rotate(b, r), Add(a, b));
    RotateBack(b, r);
    AddSub(a, b);
    var y := Unrotate(Xor(b, a), r);
    RotateBack(Xor(b, a), r);
    AddSub(a, y);
    XorTwice(b, a);
  }

  lemma SwapTwice(x: bv64)
    ensures Swap(Swap(x)) == x
  {
  }

  lemma UnroundRound(s: State)
    ensures Unround(Round(s)) == s
  {
    hide Mix, Unmix, Swap;
    var (a0, a1) := Mix(s.v0, s.v1, 13);
    var (a2, a3) := Mix(s.v2, s.v3, 16);
    SwapTwice(a0);
    SwapTwice(Mix(a2, a1, 17).0);
    MixInverse(s.v0, s.v1, 13);
    MixInverse(s.v2, s.v3, 16);
    MixInverse(Swap(a0), a3, 21);
    MixInverse(a2, a1, 17);
  }

  lemma RoundUnround(s: State)
    ensures Round(Unround(s)) == s
  {
    hide Mix, Unmix, Swap;
    var (a2, a1) := Unmix(Swap(s.v2), s.v1, 17);
    var (a0, a3) := Unmix(s.v0, s.v3, 21);
    SwapTwice(s.v2);
    SwapTwice(a0);
    MixInverse(Swap(s.v2), s.v1, 17);
    MixInverse(s.v0, s.v3, 21);
    MixInverse(a2, a3, 16);
    MixInverse(Swap(a0), a1, 13);
  }

  method ComputeMix(a: bv64, b: bv64, r: nat) returns (s: bv64, t: bv64)
    requires IsRotation(r)
    ensures (s, t) == Mix(a, b, r)
  {
    hide Add, Xor, Rotate;
    s := Add(a, b);
    t := Rotate(b, r);
    t := Xor(t, s);
  }

  /** `sip_round`: the four words are updated in the order of the source. */
  method SipRound(s: State) returns (t: State)
    ensures t == Round(s)
  {
    hide Mix, Swap;
    var v0, v1, v2, v3 := s.v0, s.v1, s.v2, s.v3;
    v0, v1 := ComputeMix(v0, v1, 13);
    v0 := Swap(v0);
    v2, v3 := ComputeMix(v2, v3, 16);
    v0, v3 := ComputeMix(v0, v3, 21);
    v2, v1 := ComputeMix(v2, v1, 17);
    v2 := Swap(v2);
    t := State(v0, v1, v2, v3);
  }

  // -------------------------------------------------------------------------
  // The general hash
  // -------------------------------------------------------------------------

  function Init(key: Key): State {
    var k0, k1 := Le64(key[..8]), Le64(key[8..]);
    State(0x736f6d6570736575 ^ k0, 0x646f72616e646f6d ^ k1, 0x6c7967656e657261 ^ k0, 0x7465646279746573 ^ k1)
  }

  function XorV3(s: State, m: bv64): State { s.(v3 := s.v3 ^ m) }
  function XorV0(s: State, m: bv64): State { s.(v0 := s.v0 ^ m) }
  function MarkEnd(s: State): State { s.(v2 := s.v2 ^ 0xff) }
  function Fold(s: State): bv64 { s.v0 ^ s.v1 ^ s.v2 ^ s.v3 }

  /** Two rounds around one message word. */
  function Compress(s: State, m: bv64): State {
    XorV0(Round(Round(XorV3(s, m))), m)
  }

  /** The last word: up to seven bytes, zero padding, and the length modulo 256. */
  function LastWord(rest: seq<Byte>, length: nat): bv64
    requires |rest| < 8
  {
    Le64(rest + seq(7 - |rest|, _ => 0) + [(length % 256) as Byte])
  }

  function Absorb(s: State, data: seq<Byte>, length: nat): State
    decreases |data|
  {
    if |data| < 8 then Compress(s, LastWord(data, length))
    else Absorb(Compress(s, Le64(data[..8])), data[8..], length)
  }

  function Finalize(s: State): bv64 {
    Fold(Round(Round(Round(Round(MarkEnd(s))))))
  }

  function Hash(key: Key, data: seq<Byte>): bv64 {
    Finalize(Absorb(Init(key), data, |data|))
  }

  // -------------------------------------------------------------------------
  // The fixed form
  // -------------------------------------------------------------------------

  method ComputeCompress(s: State, m: bv64) returns (t: State)
    ensures t == Compress(s, m)
  {
    hide Round, XorV0, XorV3;
    t := XorV3(s, m);
    t := SipRound(t);
    t := SipRound(t);
    t := XorV0(t, m);
  }

  lemma LastWordOf17(data: seq<Byte>)
    requires |data| == 17
    ensures LastWord(data[16..], 17) == (17 << 56) | (data[16] as bv64)
  {
    assert data[16..] + seq(6, _ => 0) + [17] == [data[16], 0, 0, 0, 0, 0, 0, 17];
  }

  lemma AbsorbOf17(s: State, data: seq<Byte>)
    requires |data| == 17
    ensures Absorb(s, data, 17)
         == Compress(Compress(Compress(s, Le64(data[..8])), Le64(data[8..16])), LastWord(data[16..], 17))
  {
    hide Compress, LastWord, Le64;
    var rest := data[8..];
    assert rest[..8] == data[8..16] && rest[8..] == data[16..];
    var s1 := Compress(s, Le64(data[..8]));
    assert Absorb(s, data, 17) == Absorb(s1, rest, 17);
    assert Absorb(s1, rest, 17) == Absorb(Compress(s1, Le64(data[8..16])), data[16..], 17);
  }

  /** `siphash_2_4_17`: three unrolled blocks, equal to the general hash. */
  method Hash17(key: Key, data: seq<Byte>) returns (h: bv64)
    requires |data| == 17
    ensures h == Hash(key, data)
  {
    hide Compress, Round, Absorb, Init, LastWord, Le64, MarkEnd, Fold;
    var v := Init(key);
    var m0, m1 := Le64(data[..8]), Le64(data[8..16]);
    var b := (17 << 56) | (data[16] as bv64);
    v := ComputeCompress(v, m0);
    v := ComputeCompress(v, m1);
    v := ComputeCompress(v, b);
    LastWordOf17(data);
    AbsorbOf17(Init(key), data);
    v := MarkEnd(v);
    v := SipRound(v);
    v := SipRound(v);
    v := SipRound(v);
    v := SipRound(v);
    h := Fold(v);
  }
}
