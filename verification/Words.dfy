/** Machine words as the Rust sources use them: bytes, big- and little-endian
    conversions, and the wrapping operations of `u16`, `u32` and `u64`. */
module Words {

  type Byte = bv8

  function Be16(hi: Byte, lo: Byte): bv16 {
    (hi as bv16 << 8) | (lo as bv16)
  }

  function Be32(b: seq<Byte>): bv32
    requires |b| == 4
  {
    (b[0] as bv32 << 24) | (b[1] as bv32 << 16) | (b[2] as bv32 << 8) | (b[3] as bv32)
  }

  function ToBe32(x: bv32): (b: seq<Byte>)
    ensures |b| == 4
  {
    [(x >> 24) as Byte, ((x >> 16) & 0xFF) as Byte, ((x >> 8) & 0xFF) as Byte, (x & 0xFF) as Byte]
  }

  function Be64(b: seq<Byte>): bv64
    requires |b| == 8
  {
    (b[0] as bv64 << 56) | (b[1] as bv64 << 48) | (b[2] as bv64 << 40) | (b[3] as bv64 << 32)
    | (b[4] as bv64 << 24) | (b[5] as bv64 << 16) | (b[6] as bv64 << 8) | (b[7] as bv64)
  }

  function ToBe64(x: bv64): (b: seq<Byte>)
    ensures |b| == 8
  {
    [(x >> 56) as Byte, ((x >> 48) & 0xFF) as Byte, ((x >> 40) & 0xFF) as Byte, ((x >> 32) & 0xFF) as Byte,
     ((x >> 24) & 0xFF) as Byte, ((x >> 16) & 0xFF) as Byte, ((x >> 8) & 0xFF) as Byte, (x & 0xFF) as Byte]
  }

  function Le64(b: seq<Byte>): bv64
    requires |b| == 8
  {
    (b[0] as bv64) | (b[1] as bv64 << 8) | (b[2] as bv64 << 16) | (b[3] as bv64 << 24)
    | (b[4] as bv64 << 32) | (b[5] as bv64 << 40) | (b[6] as bv64 << 48) | (b[7] as bv64 << 56)
  }

  lemma Be32RoundTrip(x: bv32)
    ensures Be32(ToBe32(x)) == x
  {
  }

  lemma ToBe32RoundTrip(b: seq<Byte>)
    requires |b| == 4
    ensures ToBe32(Be32(b)) == b
  {
  }

  lemma Be64RoundTrip(x: bv64)
    ensures Be64(ToBe64(x)) == x
  {
  }

  lemma ToBe64RoundTrip(b: seq<Byte>)
    requires |b| == 8
    ensures ToBe64(Be64(b)) == b
  {
  }
}
