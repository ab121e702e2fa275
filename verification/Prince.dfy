/** The PRINCE block cipher of common/src/crypto.rs: 64-bit block, 128-bit key.
    The state is handled as four 16-bit chunks of four nibbles each. */
module Prince {
  import opened Words

  const ALPHA: bv64 := 0xc0ac29b7c97c50dd

  /** Round constants RC[0..11]. */
  function Rc(i: nat): bv64 {
    match i
    case 0 => 0x0000000000000000
    case 1 => 0x13198a2e03707344
    case 2 => 0xa4093822299f31d0
    case 3 => 0x082efa98ec4e6c89
    case 4 => 0x452821e638d01377
    case 5 => 0xbe5466cf34e90c6c
    case 6 => 0x7ef84f78fd955cb1
    case 7 => 0x85840851f1ac43aa
    case 8 => 0xc882d32f25323c54
    case 9 => 0x64a51195e0e3610d
    case 10 => 0xd3b5a399ca0c2399
    case 11 => 0xc0ac29b7c97c50dd
    case _ => 0
  }

  function AddKey(s: bv64, k: bv64): bv64 {
    s ^ k
  }

  lemma AddKeyTwice(s: bv64, k: bv64)
    ensures AddKey(AddKey(s, k), k) == s
  {
  }

  function RoundKey(k1: bv64, i: nat): bv64 {
    AddKey(Rc(i), k1)
  }

  /** The key of the reflected core. */
  function Reflected(k1: bv64): bv64 {
    AddKey(k1, ALPHA)
  }

  lemma ReflectedTwice(k1: bv64)
    ensures Reflected(Reflected(k1)) == k1
  {
    hide AddKey;
    AddKeyTwice(k1, ALPHA);
  }

  lemma RoundConstantsReflect(i: nat)
    requires i < 12
    ensures AddKey(Rc(i), Rc(11 - i)) == ALPHA
  {
    match i
    case 0 =>
    case 1 =>
    case 2 =>
    case 3 =>
    case 4 =>
    case 5 =>
    case 6 =>
    case 7 =>
    case 8 =>
    case 9 =>
    case 10 =>
    case 11 =>
  }

  lemma AddKeyCommutes(a: bv64, b: bv64)
    ensures AddKey(a, b) == AddKey(b, a)
  {
  }

  lemma AddKeyRaw(a: bv64, b: bv64, c: bv64)
    ensures AddKey(a, b) == a ^ b && AddKey(b, c) == b ^ c
    ensures AddKey(a ^ b, c) == AddKey(a, b ^ c)
  {
  }

  lemma AddKeyAssociates(a: bv64, b: bv64, c: bv64)
    ensures AddKey(AddKey(a, b), c) == AddKey(a, AddKey(b, c))
  {
    hide AddKey;
    AddKeyRaw(a, b, c);
  }

  lemma KeysMove(k: bv64, a: bv64, b: bv64)
    ensures AddKey(b, AddKey(k, AddKey(a, b))) == AddKey(a, k)
  {
    hide AddKey;
    var sum := AddKey(a, b);
    AddKeyCommutes(k, sum);
    AddKeyAssociates(b, sum, k);
    AddKeyCommutes(b, sum);
    AddKeyTwice(a, b);
  }

  /** Round `11 - i` of the reflected core uses the key of round `i`. */
  lemma RoundKeysReflect(k1: bv64, i: nat)
    requires i < 12
    ensures RoundKey(Reflected(k1), 11 - i) == RoundKey(k1, i)
  {
    hide AddKey, Rc;
    RoundConstantsReflect(i);
    KeysMove(k1, Rc(i), Rc(11 - i));
  }

  // -------------------------------------------------------------------------
  // Chunks and nibbles
  // -------------------------------------------------------------------------

  function Chunk0(x: bv64): bv16 { (x & 0xFFFF) as bv16 }
  function Chunk1(x: bv64): bv16 { ((x >> 16) & 0xFFFF) as bv16 }
  function Chunk2(x: bv64): bv16 { ((x >> 32) & 0xFFFF) as bv16 }
  function Chunk3(x: bv64): bv16 { ((x >> 48) & 0xFFFF) as bv16 }

  function Join(c0: bv16, c1: bv16, c2: bv16, c3: bv16): bv64 {
    (c0 as bv64) | (c1 as bv64 << 16) | (c2 as bv64 << 32) | (c3 as bv64 << 48)
  }

  lemma ChunksOfJoin(a: bv16, b: bv16, c: bv16, d: bv16)
    ensures Chunk0(Join(a, b, c, d)) == a && Chunk1(Join(a, b, c, d)) == b
    ensures Chunk2(Join(a, b, c, d)) == c && Chunk3(Join(a, b, c, d)) == d
  {
  }

  lemma JoinOfChunks(x: bv64)
    ensures Join(Chunk0(x), Chunk1(x), Chunk2(x), Chunk3(x)) == x
  {
  }

  function Nibble0(c: bv16): bv4 { (c & 0xF) as bv4 }
  function Nibble1(c: bv16): bv4 { ((c >> 4) & 0xF) as bv4 }
  function Nibble2(c: bv16): bv4 { ((c >> 8) & 0xF) as bv4 }
  function Nibble3(c: bv16): bv4 { ((c >> 12) & 0xF) as bv4 }

  function JoinNibbles(n0: bv4, n1: bv4, n2: bv4, n3: bv4): bv16 {
    (n0 as bv16) | (n1 as bv16 << 4) | (n2 as bv16 << 8) | (n3 as bv16 << 12)
  }

  lemma NibblesOfJoin(a: bv4, b: bv4, c: bv4, d: bv4)
    ensures Nibble0(JoinNibbles(a, b, c, d)) == a && Nibble1(JoinNibbles(a, b, c, d)) == b
    ensures Nibble2(JoinNibbles(a, b, c, d)) == c && Nibble3(JoinNibbles(a, b, c, d)) == d
  {
  }

  lemma JoinOfNibbles(c: bv16)
    ensures JoinNibbles(Nibble0(c), Nibble1(c), Nibble2(c), Nibble3(c)) == c
  {
  }

  // -------------------------------------------------------------------------
  // S-box layers
  // -------------------------------------------------------------------------

  function Sbox(n: bv4): bv4 {
    if n == 0x0 then 0xB else if n == 0x1 then 0xF else if n == 0x2 then 0x3 else if n == 0x3 then 0x2
    else if n == 0x4 then 0xA else if n == 0x5 then 0xC else if n == 0x6 then 0x9 else if n == 0x7 then 0x1
    else if n == 0x8 then 0x6 else if n == 0x9 then 0x7 else if n == 0xA then 0x8 else if n == 0xB then 0x0
    else if n == 0xC then 0xE else if n == 0xD then 0x5 else if n == 0xE then 0xD else 0x4
  }

  function SboxInv(n: bv4): bv4 {
    if n == 0x0 then 0xB else if n == 0x1 then 0x7 else if n == 0x2 then 0x3 else if n == 0x3 then 0x2
    else if n == 0x4 then 0xF else if n == 0x5 then 0xD else if n == 0x6 then 0x8 else if n == 0x7 then 0x9
    else if n == 0x8 then 0xA else if n == 0x9 then 0x6 else if n == 0xA then 0x4 else if n == 0xB then 0x0
    else if n == 0xC then 0x5 else if n == 0xD then 0xE else if n == 0xE then 0xC else 0x1
  }

  lemma SboxInverse(n: bv4)
    ensures SboxInv(Sbox(n)) == n && Sbox(SboxInv(n)) == n
  {
  }

  function SboxChunk(c: bv16): bv16 {
    JoinNibbles(Sbox(Nibble0(c)), Sbox(Nibble1(c)), Sbox(Nibble2(c)), Sbox(Nibble3(c)))
  }

  function SboxInvChunk(c: bv16): bv16 {
    JoinNibbles(SboxInv(Nibble0(c)), SboxInv(Nibble1(c)), SboxInv(Nibble2(c)), SboxInv(Nibble3(c)))
  }

  lemma SboxChunkInverse(c: bv16)
    ensures SboxInvChunk(SboxChunk(c)) == c && SboxChunk(SboxInvChunk(c)) == c
  {
    hide Sbox, SboxInv, JoinNibbles, Nibble0, Nibble1, Nibble2, Nibble3;
    var (n0, n1, n2, n3) := (Nibble0(c), Nibble1(c), Nibble2(c), Nibble3(c));
    SboxInverse(n0);
    SboxInverse(n1);
    SboxInverse(n2);
    SboxInverse(n3);
    NibblesOfJoin(Sbox(n0), Sbox(n1), Sbox(n2), Sbox(n3));
    NibblesOfJoin(SboxInv(n0), SboxInv(n1), SboxInv(n2), SboxInv(n3));
    JoinOfNibbles(c);
  }

  function SboxLayer(x: bv64): bv64 {
    Join(SboxChunk(Chunk0(x)), SboxChunk(Chunk1(x)), SboxChunk(Chunk2(x)), SboxChunk(Chunk3(x)))
  }

  function SboxInvLayer(x: bv64): bv64 {
    Join(SboxInvChunk(Chunk0(x)), SboxInvChunk(Chunk1(x)), SboxInvChunk(Chunk2(x)), SboxInvChunk(Chunk3(x)))
  }

  lemma SboxLayersInverse(x: bv64)
    ensures SboxInvLayer(SboxLayer(x)) == x && SboxLayer(SboxInvLayer(x)) == x
  {
    hide SboxChunk, SboxInvChunk, Join, Chunk0, Chunk1, Chunk2, Chunk3;
    var (c0, c1, c2, c3) := (Chunk0(x), Chunk1(x), Chunk2(x), Chunk3(x));
    SboxChunkInverse(c0);
    SboxChunkInverse(c1);
    SboxChunkInverse(c2);
    SboxChunkInverse(c3);
    ChunksOfJoin(SboxChunk(c0), SboxChunk(c1), SboxChunk(c2), SboxChunk(c3));
    ChunksOfJoin(SboxInvChunk(c0), SboxInvChunk(c1), SboxInvChunk(c2), SboxInvChunk(c3));
    JoinOfChunks(x);
  }

  /** The layer in the reading of the source: every nibble is substituted on its own. */
  lemma SboxLayerNibbles(x: bv64)
    ensures var y := SboxLayer(x);
            && NibblesMapped(Chunk0(x), Chunk0(y)) && NibblesMapped(Chunk1(x), Chunk1(y))
            && NibblesMapped(Chunk2(x), Chunk2(y)) && NibblesMapped(Chunk3(x), Chunk3(y))
  {
    hide SboxChunk, Join, Chunk0, Chunk1, Chunk2, Chunk3, NibblesMapped;
    var (c0, c1, c2, c3) := (Chunk0(x), Chunk1(x), Chunk2(x), Chunk3(x));
    ChunksOfJoin(SboxChunk(c0), SboxChunk(c1), SboxChunk(c2), SboxChunk(c3));
    SboxChunkMaps(c0);
    SboxChunkMaps(c1);
    SboxChunkMaps(c2);
    SboxChunkMaps(c3);
  }

  ghost predicate NibblesMapped(c: bv16, d: bv16) {
    && Nibble0(d) == Sbox(Nibble0(c)) && Nibble1(d) == Sbox(Nibble1(c))
    && Nibble2(d) == Sbox(Nibble2(c)) && Nibble3(d) == Sbox(Nibble3(c))
  }

  lemma SboxChunkMaps(c: bv16)
    ensures NibblesMapped(c, SboxChunk(c))
  {
    hide Sbox, JoinNibbles, Nibble0, Nibble1, Nibble2, Nibble3;
    NibblesOfJoin(Sbox(Nibble0(c)), Sbox(Nibble1(c)), Sbox(Nibble2(c)), Sbox(Nibble3(c)));
  }

  // -------------------------------------------------------------------------
  // M' layer: multiplication by 16x16 matrices over GF(2), given by columns
  // -------------------------------------------------------------------------

  type Matrix = m: seq<bv16> | |m| == 16 witness seq(16, _ => 0)

  const M_HAT_0: Matrix := [
    0x0111, 0x2220, 0x4404, 0x8088, 0x1011, 0x0222, 0x4440, 0x8808,
    0x1101, 0x2022, 0x0444, 0x8880, 0x1110, 0x2202, 0x4044, 0x0888]

  const M_HAT_1: Matrix := [
    0x1110, 0x2202, 0x4044, 0x0888, 0x0111, 0x2220, 0x4404, 0x8088,
    0x1011, 0x0222, 0x4440, 0x8808, 0x1101, 0x2022, 0x0444, 0x8880]

  function Xor(a: bv16, b: bv16): bv16 {
    a ^ b
  }

  lemma XorIs(a: bv16, b: bv16)
    ensures Xor(a, b) == a ^ b
  {
  }

  lemma XorRaw(a: bv16, b: bv16, c: bv16, d: bv16)
    ensures Xor(a ^ b, c ^ d) == Xor(a ^ c, b ^ d)
  {
  }

  lemma XorInterchange(a: bv16, b: bv16, c: bv16, d: bv16)
    ensures Xor(Xor(a, b), Xor(c, d)) == Xor(Xor(a, c), Xor(b, d))
  {
    hide Xor;
    XorIs(a, b);
    XorIs(c, d);
    XorIs(a, c);
    XorIs(b, d);
    XorRaw(a, b, c, d);
  }

  /** One step of `gf2_mat_mul`: a column, or zero when its bit is clear. */
  function Select(bit: bv1, column: bv16): bv16 {
    if bit == 1 then column else 0
  }

  lemma SelectFacts(column: bv16)
    ensures Select(1, column) == column && Select(0, column) == 0
    ensures Xor(column, column) == 0 && Xor(column, 0) == column && Xor(0, column) == column && Xor(0, 0) == 0
  {
  }

  lemma SelectLinear(p: bv1, q: bv1, column: bv16)
    ensures Select(p ^ q, column) == Xor(Select(p, column), Select(q, column))
  {
    hide Xor, Select;
    SelectFacts(column);
    assert (p == 0 || p == 1) && (q == 0 || q == 1);
  }

  function Bit0(n: bv4): bv1 { ((n >> 0) & 1) as bv1 }
  function Bit1(n: bv4): bv1 { ((n >> 1) & 1) as bv1 }
  function Bit2(n: bv4): bv1 { ((n >> 2) & 1) as bv1 }
  function Bit3(n: bv4): bv1 { ((n >> 3) & 1) as bv1 }

  /** The part of the product that the four columns of one nibble contribute. */
  function NibbleProduct(n: bv4, c0: bv16, c1: bv16, c2: bv16, c3: bv16): bv16 {
    Xor(Xor(Select(Bit0(n), c0), Select(Bit1(n), c1)), Xor(Select(Bit2(n), c2), Select(Bit3(n), c3)))
  }

  lemma BitsOfXor(m: bv4, n: bv4)
    ensures Bit0(m ^ n) == Bit0(m) ^ Bit0(n) && Bit1(m ^ n) == Bit1(m) ^ Bit1(n)
    ensures Bit2(m ^ n) == Bit2(m) ^ Bit2(n) && Bit3(m ^ n) == Bit3(m) ^ Bit3(n)
  {
  }

  /** The interchange law on a balanced sum of four sums. */
  lemma XorOfSums(a0: bv16, a1: bv16, a2: bv16, a3: bv16, b0: bv16, b1: bv16, b2: bv16, b3: bv16)
    ensures Xor(Xor(Xor(a0, b0), Xor(a1, b1)), Xor(Xor(a2, b2), Xor(a3, b3)))
         == Xor(Xor(Xor(a0, a1), Xor(a2, a3)), Xor(Xor(b0, b1), Xor(b2, b3)))
  {
    hide Xor;
    XorInterchange(a0, b0, a1, b1);
    XorInterchange(a2, b2, a3, b3);
    XorInterchange(Xor(a0, a1), Xor(b0, b1), Xor(a2, a3), Xor(b2, b3));
  }

  lemma NibbleProductLinear(m: bv4, n: bv4, c0: bv16, c1: bv16, c2: bv16, c3: bv16)
    ensures NibbleProduct(m ^ n, c0, c1, c2, c3)
         == Xor(NibbleProduct(m, c0, c1, c2, c3), NibbleProduct(n, c0, c1, c2, c3))
  {
    hide Xor, Select, Bit0, Bit1, Bit2, Bit3;
    BitsOfXor(m, n);
    SelectLinear(Bit0(m), Bit0(n), c0);
    SelectLinear(Bit1(m), Bit1(n), c1);
    SelectLinear(Bit2(m), Bit2(n), c2);
    SelectLinear(Bit3(m), Bit3(n), c3);
    XorOfSums(Select(Bit0(m), c0), Select(Bit1(m), c1), Select(Bit2(m), c2), Select(Bit3(m), c3),
              Select(Bit0(n), c0), Select(Bit1(n), c1), Select(Bit2(n), c2), Select(Bit3(n), c3));
  }

  function Part0(v: bv16, m: Matrix): bv16 { NibbleProduct(Nibble0(v), m[0], m[1], m[2], m[3]) }
  function Part1(v: bv16, m: Matrix): bv16 { NibbleProduct(Nibble1(v), m[4], m[5], m[6], m[7]) }
  function Part2(v: bv16, m: Matrix): bv16 { NibbleProduct(Nibble2(v), m[8], m[9], m[10], m[11]) }
  function Part3(v: bv16, m: Matrix): bv16 { NibbleProduct(Nibble3(v), m[12], m[13], m[14], m[15]) }

  function MatMul(v: bv16, m: Matrix): bv16 {
    Xor(Xor(Part0(v, m), Part1(v, m)), Xor(Part2(v, m), Part3(v, m)))
  }

  /** One step in the form of the source: a column masked with the negated bit. */
  function Mask(bit: bv16, column: bv16): bv16 {
    column & (0 - bit)
  }

  lemma MaskIsSelect(bit: bv1, column: bv16)
    ensures Mask(bit as bv16, column) == Select(bit, column)
  {
    MaskRaw(column);
    hide Mask, Select;
    if bit == 0 {
      assert bit as bv16 == 0;
    } else {
      assert bit as bv16 == 1;
    }
  }

  lemma MaskRaw(column: bv16)
    ensures Mask(0, column) == 0 && Mask(1, column) == column && Select(0, column) == 0 && Select(1, column) == column
  {
  }

  lemma BitsOfNibbles(v: bv16)
    ensures v & 1 == Bit0(Nibble0(v)) as bv16
    ensures (v >> 1) & 1 == Bit1(Nibble0(v)) as bv16
    ensures (v >> 2) & 1 == Bit2(Nibble0(v)) as bv16
    ensures (v >> 3) & 1 == Bit3(Nibble0(v)) as bv16
    ensures (v >> 4) & 1 == Bit0(Nibble1(v)) as bv16
    ensures (v >> 5) & 1 == Bit1(Nibble1(v)) as bv16
    ensures (v >> 6) & 1 == Bit2(Nibble1(v)) as bv16
    ensures (v >> 7) & 1 == Bit3(Nibble1(v)) as bv16
    ensures (v >> 8) & 1 == Bit0(Nibble2(v)) as bv16
    ensures (v >> 9) & 1 == Bit1(Nibble2(v)) as bv16
    ensures (v >> 10) & 1 == Bit2(Nibble2(v)) as bv16
    ensures (v >> 11) & 1 == Bit3(Nibble2(v)) as bv16
    ensures (v >> 12) & 1 == Bit0(Nibble3(v)) as bv16
    ensures (v >> 13) & 1 == Bit1(Nibble3(v)) as bv16
    ensures (v >> 14) & 1 == Bit2(Nibble3(v)) as bv16
    ensures (v >> 15) & 1 == Bit3(Nibble3(v)) as bv16
  {
  }

  lemma XorAssociates(a: bv16, b: bv16, c: bv16)
    ensures Xor(Xor(a, b), c) == Xor(a, Xor(b, c))
  {
    hide Xor;
    XorZero(b);
    XorInterchange(a, b, 0, c);
    XorZero(a);
    XorZero(Xor(b, c));
    XorZero(c);
  }

  lemma XorZero(a: bv16)
    ensures Xor(a, 0) == a && Xor(0, a) == a
  {
  }

  lemma NibbleDone(out: bv16, n: bv4, a: bv16, b: bv16, c: bv16, d: bv16)
    ensures Xor(Xor(Xor(Xor(out, Select(Bit0(n), a)), Select(Bit1(n), b)), Select(Bit2(n), c)), Select(Bit3(n), d))
         == Xor(out, NibbleProduct(n, a, b, c, d))
  {
    hide Xor, Select, Bit0, Bit1, Bit2, Bit3;
    var (p, q, r, t) := (Select(Bit0(n), a), Select(Bit1(n), b), Select(Bit2(n), c), Select(Bit3(n), d));
    XorAssociates(out, p, q);
    XorAssociates(Xor(out, Xor(p, q)), r, t);
    XorAssociates(out, Xor(p, q), Xor(r, t));
  }

  method Step(out: bv16, bit: bv16, column: bv16, ghost same: bv1) returns (next: bv16)
    requires bit == same as bv16
    ensures next == Xor(out, Select(same, column))
  {
    hide Mask, Select, Xor;
    MaskIsSelect(same, column);
    next := Xor(out, Mask(bit, column));
  }

  /** `gf2_mat_mul`, one accumulation per source line. */
  method Gf2MatMul(val: bv16, cols: Matrix) returns (out: bv16)
    ensures out == MatMul(val, cols)
  {
    hide Xor, Mask, Select, Bit0, Bit1, Bit2, Bit3, Nibble0, Nibble1, Nibble2, Nibble3;
    BitsOfNibbles(val);
    out := 0;
    out := Step(out, val & 1, cols[0], Bit0(Nibble0(val)));
    out := Step(out, (val >> 1) & 1, cols[1], Bit1(Nibble0(val)));
    out := Step(out, (val >> 2) & 1, cols[2], Bit2(Nibble0(val)));
    out := Step(out, (val >> 3) & 1, cols[3], Bit3(Nibble0(val)));
    NibbleDone(0, Nibble0(val), cols[0], cols[1], cols[2], cols[3]);
    out := Step(out, (val >> 4) & 1, cols[4], Bit0(Nibble1(val)));
    out := Step(out, (val >> 5) & 1, cols[5], Bit1(Nibble1(val)));
    out := Step(out, (val >> 6) & 1, cols[6], Bit2(Nibble1(val)));
    out := Step(out, (val >> 7) & 1, cols[7], Bit3(Nibble1(val)));
    NibbleDone(Part0(val, cols), Nibble1(val), cols[4], cols[5], cols[6], cols[7]);
    out := Step(out, (val >> 8) & 1, cols[8], Bit0(Nibble2(val)));
    out := Step(out, (val >> 9) & 1, cols[9], Bit1(Nibble2(val)));
    out := Step(out, (val >> 10) & 1, cols[10], Bit2(Nibble2(val)));
    out := Step(out, (val >> 11) & 1, cols[11], Bit3(Nibble2(val)));
    NibbleDone(Xor(Part0(val, cols), Part1(val, cols)), Nibble2(val), cols[8], cols[9], cols[10], cols[11]);
    out := Step(out, (val >> 12) & 1, cols[12], Bit0(Nibble3(val)));
    out := Step(out, (val >> 13) & 1, cols[13], Bit1(Nibble3(val)));
    out := Step(out, (val >> 14) & 1, cols[14], Bit2(Nibble3(val)));
    out := Step(out, (val >> 15) & 1, cols[15], Bit3(Nibble3(val)));
    NibbleDone(Xor(Xor(Part0(val, cols), Part1(val, cols)), Part2(val, cols)), Nibble3(val), cols[12], cols[13], cols[14], cols[15]);
    XorZero(Part0(val, cols));
    XorAssociates(Xor(Part0(val, cols), Part1(val, cols)), Part2(val, cols), Part3(val, cols));
  }

  lemma NibblesOfRawXor(v: bv16, w: bv16)
    ensures Nibble0(v ^ w) == Nibble0(v) ^ Nibble0(w) && Nibble1(v ^ w) == Nibble1(v) ^ Nibble1(w)
    ensures Nibble2(v ^ w) == Nibble2(v) ^ Nibble2(w) && Nibble3(v ^ w) == Nibble3(v) ^ Nibble3(w)
  {
  }

  lemma NibblesOfXor(v: bv16, w: bv16)
    ensures Nibble0(Xor(v, w)) == Nibble0(v) ^ Nibble0(w) && Nibble1(Xor(v, w)) == Nibble1(v) ^ Nibble1(w)
    ensures Nibble2(Xor(v, w)) == Nibble2(v) ^ Nibble2(w) && Nibble3(Xor(v, w)) == Nibble3(v) ^ Nibble3(w)
  {
    hide Nibble0, Nibble1, Nibble2, Nibble3, Xor;
    XorIs(v, w);
    NibblesOfRawXor(v, w);
  }

  lemma PartsLinear(v: bv16, w: bv16, m: Matrix)
    ensures Part0(Xor(v, w), m) == Xor(Part0(v, m), Part0(w, m)) && Part1(Xor(v, w), m) == Xor(Part1(v, m), Part1(w, m))
    ensures Part2(Xor(v, w), m) == Xor(Part2(v, m), Part2(w, m)) && Part3(Xor(v, w), m) == Xor(Part3(v, m), Part3(w, m))
  {
    hide NibbleProduct, Nibble0, Nibble1, Nibble2, Nibble3, Xor;
    NibblesOfXor(v, w);
    NibbleProductLinear(Nibble0(v), Nibble0(w), m[0], m[1], m[2], m[3]);
    NibbleProductLinear(Nibble1(v), Nibble1(w), m[4], m[5], m[6], m[7]);
    NibbleProductLinear(Nibble2(v), Nibble2(w), m[8], m[9], m[10], m[11]);
    NibbleProductLinear(Nibble3(v), Nibble3(w), m[12], m[13], m[14], m[15]);
  }

  lemma MatMulLinear(v: bv16, w: bv16, m: Matrix)
    ensures MatMul(Xor(v, w), m) == Xor(MatMul(v, m), MatMul(w, m))
  {
    hide Part0, Part1, Part2, Part3, Xor;
    PartsLinear(v, w, m);
    XorOfSums(Part0(v, m), Part1(v, m), Part2(v, m), Part3(v, m), Part0(w, m), Part1(w, m), Part2(w, m), Part3(w, m));
  }

  lemma UnitNibbles(a: bv16, b: bv16, c: bv16, d: bv16)
    ensures NibbleProduct(0, a, b, c, d) == 0
    ensures NibbleProduct(1, a, b, c, d) == a && NibbleProduct(2, a, b, c, d) == b
    ensures NibbleProduct(4, a, b, c, d) == c && NibbleProduct(8, a, b, c, d) == d
  {
    hide Xor, Select;
    SelectFacts(a);
    SelectFacts(b);
    SelectFacts(c);
    SelectFacts(d);
    XorZero(a);
    XorZero(b);
    XorZero(c);
    XorZero(d);
    XorZero(0);
  }

  /** With linearity this says all there is to say: the image of the unit vector for bit
      `i` of nibble `g` is column `4 g + i`. */
  lemma MatMulColumns(m: Matrix, u: bv4, i: nat)
    requires i < 4 && u == (match i case 0 => 1 case 1 => 2 case 2 => 4 case _ => 8)
    ensures MatMul(JoinNibbles(u, 0, 0, 0), m) == m[i] && MatMul(JoinNibbles(0, u, 0, 0), m) == m[4 + i]
    ensures MatMul(JoinNibbles(0, 0, u, 0), m) == m[8 + i] && MatMul(JoinNibbles(0, 0, 0, u), m) == m[12 + i]
  {
    hide Xor, NibbleProduct, Nibble0, Nibble1, Nibble2, Nibble3, JoinNibbles;
    NibblesOfJoin(u, 0, 0, 0);
    NibblesOfJoin(0, u, 0, 0);
    NibblesOfJoin(0, 0, u, 0);
    NibblesOfJoin(0, 0, 0, u);
    UnitNibbles(m[0], m[1], m[2], m[3]);
    UnitNibbles(m[4], m[5], m[6], m[7]);
    UnitNibbles(m[8], m[9], m[10], m[11]);
    UnitNibbles(m[12], m[13], m[14], m[15]);
    XorZero(m[i]);
    XorZero(m[4 + i]);
    XorZero(m[8 + i]);
    XorZero(m[12 + i]);
    XorZero(0);
  }

  ghost predicate Fixed(v: bv16, m: Matrix) {
    MatMul(MatMul(v, m), m) == v
  }

  lemma FixedSum(v: bv16, w: bv16, m: Matrix)
    requires Fixed(v, m) && Fixed(w, m)
    ensures Fixed(Xor(v, w), m)
  {
    hide MatMul, Xor;
    MatMulLinear(v, w, m);
    MatMulLinear(MatMul(v, m), MatMul(w, m), m);
  }

  /** Both hat matrices are made of the same four blocks of columns. */
  function Block0(n: bv4): bv16 { NibbleProduct(n, 0x0111, 0x2220, 0x4404, 0x8088) }
  function Block1(n: bv4): bv16 { NibbleProduct(n, 0x1011, 0x0222, 0x4440, 0x8808) }
  function Block2(n: bv4): bv16 { NibbleProduct(n, 0x1101, 0x2022, 0x0444, 0x8880) }
  function Block3(n: bv4): bv16 { NibbleProduct(n, 0x1110, 0x2202, 0x4044, 0x0888) }

  lemma MatMulOfNibbles(a: bv4, b: bv4, c: bv4, d: bv4, m: Matrix)
    ensures MatMul(JoinNibbles(a, b, c, d), m)
         == Xor(Xor(NibbleProduct(a, m[0], m[1], m[2], m[3]), NibbleProduct(b, m[4], m[5], m[6], m[7])),
                Xor(NibbleProduct(c, m[8], m[9], m[10], m[11]), NibbleProduct(d, m[12], m[13], m[14], m[15])))
  {
    hide Xor, NibbleProduct, Nibble0, Nibble1, Nibble2, Nibble3, JoinNibbles;
    NibblesOfJoin(a, b, c, d);
  }

  lemma Hat0Image(a: bv4, b: bv4, c: bv4, d: bv4)
    ensures MatMul(JoinNibbles(a, b, c, d), M_HAT_0) == Xor(Xor(Block0(a), Block1(b)), Xor(Block2(c), Block3(d)))
  {
    hide Xor, NibbleProduct, MatMul, JoinNibbles;
    MatMulOfNibbles(a, b, c, d, M_HAT_0);
  }

  lemma Hat1Image(a: bv4, b: bv4, c: bv4, d: bv4)
    ensures MatMul(JoinNibbles(a, b, c, d), M_HAT_1) == Xor(Xor(Block3(a), Block0(b)), Xor(Block1(c), Block2(d)))
  {
    hide Xor, NibbleProduct, MatMul, JoinNibbles;
    MatMulOfNibbles(a, b, c, d, M_HAT_1);
  }

  /** A block leaves each bit of the nibble in three of the four places. */
  lemma BlockNibbles(n: bv4)
    ensures Block0(n) == JoinNibbles(n & 13, n & 11, n & 7, n & 14)
    ensures Block1(n) == JoinNibbles(n & 11, n & 7, n & 14, n & 13)
    ensures Block2(n) == JoinNibbles(n & 7, n & 14, n & 13, n & 11)
    ensures Block3(n) == JoinNibbles(n & 14, n & 13, n & 11, n & 7)
  {
  }

  lemma BlocksOfZero()
    ensures Block0(0) == 0 && Block1(0) == 0 && Block2(0) == 0 && Block3(0) == 0
  {
  }

  lemma Hat0Returns0(n: bv4)
    ensures Xor(Xor(Block0(n & 13), Block1(n & 11)), Xor(Block2(n & 7), Block3(n & 14))) == JoinNibbles(n, 0, 0, 0)
  {
  }

  lemma Hat0FixesPlace0(n: bv4)
    ensures Fixed(JoinNibbles(n, 0, 0, 0), M_HAT_0)
  {
    hide Xor, MatMul, JoinNibbles, Block0, Block1, Block2, Block3;
    Hat0Image(n, 0, 0, 0);
    BlocksOfZero();
    XorZero(Block0(n));
    XorZero(0);
    BlockNibbles(n);
    Hat0Image(n & 13, n & 11, n & 7, n & 14);
    Hat0Returns0(n);
  }

  lemma Hat0Returns1(n: bv4)
    ensures Xor(Xor(Block0(n & 11), Block1(n & 7)), Xor(Block2(n & 14), Block3(n & 13))) == JoinNibbles(0, n, 0, 0)
  {
  }

  lemma Hat0FixesPlace1(n: bv4)
    ensures Fixed(JoinNibbles(0, n, 0, 0), M_HAT_0)
  {
    hide Xor, MatMul, JoinNibbles, Block0, Block1, Block2, Block3;
    Hat0Image(0, n, 0, 0);
    BlocksOfZero();
    XorZero(Block1(n));
    XorZero(0);
    BlockNibbles(n);
    Hat0Image(n & 11, n & 7, n & 14, n & 13);
    Hat0Returns1(n);
  }

  lemma Hat0Returns2(n: bv4)
    ensures Xor(Xor(Block0(n & 7), Block1(n & 14)), Xor(Block2(n & 13), Block3(n & 11))) == JoinNibbles(0, 0, n, 0)
  {
  }

  lemma Hat0FixesPlace2(n: bv4)
    ensures Fixed(JoinNibbles(0, 0, n, 0), M_HAT_0)
  {
    hide Xor, MatMul, JoinNibbles, Block0, Block1, Block2, Block3;
    Hat0Image(0, 0, n, 0);
    BlocksOfZero();
    XorZero(Block2(n));
    XorZero(0);
    BlockNibbles(n);
    Hat0Image(n & 7, n & 14, n & 13, n & 11);
    Hat0Returns2(n);
  }

  lemma Hat0Returns3(n: bv4)
    ensures Xor(Xor(Block0(n & 14), Block1(n & 13)), Xor(Block2(n & 11), Block3(n & 7))) == JoinNibbles(0, 0, 0, n)
  {
  }

  lemma Hat0FixesPlace3(n: bv4)
    ensures Fixed(JoinNibbles(0, 0, 0, n), M_HAT_0)
  {
    hide Xor, MatMul, JoinNibbles, Block0, Block1, Block2, Block3;
    Hat0Image(0, 0, 0, n);
    BlocksOfZero();
    XorZero(Block3(n));
    XorZero(0);
    BlockNibbles(n);
    Hat0Image(n & 14, n & 13, n & 11, n & 7);
    Hat0Returns3(n);
  }

  lemma Hat1Returns0(n: bv4)
    ensures Xor(Xor(Block3(n & 14), Block0(n & 13)), Xor(Block1(n & 11), Block2(n & 7))) == JoinNibbles(n, 0, 0, 0)
  {
  }

  lemma Hat1FixesPlace0(n: bv4)
    ensures Fixed(JoinNibbles(n, 0, 0, 0), M_HAT_1)
  {
    hide Xor, MatMul, JoinNibbles, Block0, Block1, Block2, Block3;
    Hat1Image(n, 0, 0, 0);
    BlocksOfZero();
    XorZero(Block3(n));
    XorZero(0);
    BlockNibbles(n);
    Hat1Image(n & 14, n & 13, n & 11, n & 7);
    Hat1Returns0(n);
  }

  lemma Hat1Returns1(n: bv4)
    ensures Xor(Xor(Block3(n & 13), Block0(n & 11)), Xor(Block1(n & 7), Block2(n & 14))) == JoinNibbles(0, n, 0, 0)
  {
  }

  lemma Hat1FixesPlace1(n: bv4)
    ensures Fixed(JoinNibbles(0, n, 0, 0), M_HAT_1)
  {
    hide Xor, MatMul, JoinNibbles, Block0, Block1, Block2, Block3;
    Hat1Image(0, n, 0, 0);
    BlocksOfZero();
    XorZero(Block0(n));
    XorZero(0);
    BlockNibbles(n);
    Hat1Image(n & 13, n & 11, n & 7, n & 14);
    Hat1Returns1(n);
  }

  lemma Hat1Returns2(n: bv4)
    ensures Xor(Xor(Block3(n & 11), Block0(n & 7)), Xor(Block1(n & 14), Block2(n & 13))) == JoinNibbles(0, 0, n, 0)
  {
  }

  lemma Hat1FixesPlace2(n: bv4)
    ensures Fixed(JoinNibbles(0, 0, n, 0), M_HAT_1)
  {
    hide Xor, MatMul, JoinNibbles, Block0, Block1, Block2, Block3;
    Hat1Image(0, 0, n, 0);
    BlocksOfZero();
    XorZero(Block1(n));
    XorZero(0);
    BlockNibbles(n);
    Hat1Image(n & 11, n & 7, n & 14, n & 13);
    Hat1Returns2(n);
  }

  lemma Hat1Returns3(n: bv4)
    ensures Xor(Xor(Block3(n & 7), Block0(n & 14)), Xor(Block1(n & 13), Block2(n & 11))) == JoinNibbles(0, 0, 0, n)
  {
  }

  lemma Hat1FixesPlace3(n: bv4)
    ensures Fixed(JoinNibbles(0, 0, 0, n), M_HAT_1)
  {
    hide Xor, MatMul, JoinNibbles, Block0, Block1, Block2, Block3;
    Hat1Image(0, 0, 0, n);
    BlocksOfZero();
    XorZero(Block2(n));
    XorZero(0);
    BlockNibbles(n);
    Hat1Image(n & 7, n & 14, n & 13, n & 11);
    Hat1Returns3(n);
  }

  lemma SumOfPlaces(v: bv16)
    ensures Xor(Xor(JoinNibbles(Nibble0(v), 0, 0, 0), JoinNibbles(0, Nibble1(v), 0, 0)),
                Xor(JoinNibbles(0, 0, Nibble2(v), 0), JoinNibbles(0, 0, 0, Nibble3(v)))) == v
  {
  }

  lemma HatsAreInvolutions(v: bv16)
    ensures MatMul(MatMul(v, M_HAT_0), M_HAT_0) == v
    ensures MatMul(MatMul(v, M_HAT_1), M_HAT_1) == v
  {
    hide JoinNibbles, Nibble0, Nibble1, Nibble2, Nibble3, Xor, MatMul;
    var (e0, e1) := (JoinNibbles(Nibble0(v), 0, 0, 0), JoinNibbles(0, Nibble1(v), 0, 0));
    var (e2, e3) := (JoinNibbles(0, 0, Nibble2(v), 0), JoinNibbles(0, 0, 0, Nibble3(v)));
    SumOfPlaces(v);
    Hat0FixesPlace0(Nibble0(v));
    Hat0FixesPlace1(Nibble1(v));
    Hat0FixesPlace2(Nibble2(v));
    Hat0FixesPlace3(Nibble3(v));
    FixedSum(e0, e1, M_HAT_0);
    FixedSum(e2, e3, M_HAT_0);
    FixedSum(Xor(e0, e1), Xor(e2, e3), M_HAT_0);
    Hat1FixesPlace0(Nibble0(v));
    Hat1FixesPlace1(Nibble1(v));
    Hat1FixesPlace2(Nibble2(v));
    Hat1FixesPlace3(Nibble3(v));
    FixedSum(e0, e1, M_HAT_1);
    FixedSum(e2, e3, M_HAT_1);
    FixedSum(Xor(e0, e1), Xor(e2, e3), M_HAT_1);
  }

  function NoBit0(n: bv4): bv4 { n & 14 }
  function NoBit1(n: bv4): bv4 { n & 13 }
  function NoBit2(n: bv4): bv4 { n & 11 }
  function NoBit3(n: bv4): bv4 { n & 7 }
  function Sum(a: bv4, b: bv4): bv4 { a ^ b }

  lemma BlockDropsBits(n: bv4)
    ensures Block0(n) == JoinNibbles(NoBit1(n), NoBit2(n), NoBit3(n), NoBit0(n))
    ensures Block1(n) == JoinNibbles(NoBit2(n), NoBit3(n), NoBit0(n), NoBit1(n))
    ensures Block2(n) == JoinNibbles(NoBit3(n), NoBit0(n), NoBit1(n), NoBit2(n))
    ensures Block3(n) == JoinNibbles(NoBit0(n), NoBit1(n), NoBit2(n), NoBit3(n))
  {
    hide Block0, Block1, Block2, Block3;
    BlockNibbles(n);
  }

  lemma XorOfJoins(a0: bv4, a1: bv4, a2: bv4, a3: bv4, b0: bv4, b1: bv4, b2: bv4, b3: bv4)
    ensures Xor(JoinNibbles(a0, a1, a2, a3), JoinNibbles(b0, b1, b2, b3))
         == JoinNibbles(Sum(a0, b0), Sum(a1, b1), Sum(a2, b2), Sum(a3, b3))
  {
  }

  /** The matrix in the reading of the cipher's designers: every nibble of the product is
      the sum of the four nibbles, each without one bit. */
  lemma Hat0Nibbles(a: bv4, b: bv4, c: bv4, d: bv4)
    ensures MatMul(JoinNibbles(a, b, c, d), M_HAT_0)
         == JoinNibbles(Sum(Sum(NoBit1(a), NoBit2(b)), Sum(NoBit3(c), NoBit0(d))), Sum(Sum(NoBit2(a), NoBit3(b)), Sum(NoBit0(c), NoBit1(d))),
                        Sum(Sum(NoBit3(a), NoBit0(b)), Sum(NoBit1(c), NoBit2(d))), Sum(Sum(NoBit0(a), NoBit1(b)), Sum(NoBit2(c), NoBit3(d))))
  {
    hide Xor, Sum, MatMul, JoinNibbles, Block0, Block1, Block2, Block3, NoBit0, NoBit1, NoBit2, NoBit3;
    Hat0Image(a, b, c, d);
    BlockDropsBits(a);
    BlockDropsBits(b);
    BlockDropsBits(c);
    BlockDropsBits(d);
    XorOfJoins(NoBit1(a), NoBit2(a), NoBit3(a), NoBit0(a), NoBit2(b), NoBit3(b), NoBit0(b), NoBit1(b));
    XorOfJoins(NoBit3(c), NoBit0(c), NoBit1(c), NoBit2(c), NoBit0(d), NoBit1(d), NoBit2(d), NoBit3(d));
    XorOfJoins(Sum(NoBit1(a), NoBit2(b)), Sum(NoBit2(a), NoBit3(b)), Sum(NoBit3(a), NoBit0(b)), Sum(NoBit0(a), NoBit1(b)),
               Sum(NoBit3(c), NoBit0(d)), Sum(NoBit0(c), NoBit1(d)), Sum(NoBit1(c), NoBit2(d)), Sum(NoBit2(c), NoBit3(d)));
  }

  /** The matrix in the reading of the cipher's designers: every nibble of the product is
      the sum of the four nibbles, each without one bit. */
  lemma Hat1Nibbles(a: bv4, b: bv4, c: bv4, d: bv4)
    ensures MatMul(JoinNibbles(a, b, c, d), M_HAT_1)
         == JoinNibbles(Sum(Sum(NoBit0(a), NoBit1(b)), Sum(NoBit2(c), NoBit3(d))), Sum(Sum(NoBit1(a), NoBit2(b)), Sum(NoBit3(c), NoBit0(d))),
                        Sum(Sum(NoBit2(a), NoBit3(b)), Sum(NoBit0(c), NoBit1(d))), Sum(Sum(NoBit3(a), NoBit0(b)), Sum(NoBit1(c), NoBit2(d))))
  {
    hide Xor, Sum, MatMul, JoinNibbles, Block0, Block1, Block2, Block3, NoBit0, NoBit1, NoBit2, NoBit3;
    Hat1Image(a, b, c, d);
    BlockDropsBits(a);
    BlockDropsBits(b);
    BlockDropsBits(c);
    BlockDropsBits(d);
    XorOfJoins(NoBit0(a), NoBit1(a), NoBit2(a), NoBit3(a), NoBit1(b), NoBit2(b), NoBit3(b), NoBit0(b));
    XorOfJoins(NoBit2(c), NoBit3(c), NoBit0(c), NoBit1(c), NoBit3(d), NoBit0(d), NoBit1(d), NoBit2(d));
    XorOfJoins(Sum(NoBit0(a), NoBit1(b)), Sum(NoBit1(a), NoBit2(b)), Sum(NoBit2(a), NoBit3(b)), Sum(NoBit3(a), NoBit0(b)),
               Sum(NoBit2(c), NoBit3(d)), Sum(NoBit3(c), NoBit0(d)), Sum(NoBit0(c), NoBit1(d)), Sum(NoBit1(c), NoBit2(d)));
  }

  function MPrime(x: bv64): bv64 {
    Join(MatMul(Chunk0(x), M_HAT_0), MatMul(Chunk1(x), M_HAT_1), MatMul(Chunk2(x), M_HAT_1), MatMul(Chunk3(x), M_HAT_0))
  }

  lemma MPrimeInvolution(x: bv64)
    ensures MPrime(MPrime(x)) == x
  {
    hide MatMul, Join, Chunk0, Chunk1, Chunk2, Chunk3;
    var (c0, c1, c2, c3) := (Chunk0(x), Chunk1(x), Chunk2(x), Chunk3(x));
    HatsAreInvolutions(c0);
    HatsAreInvolutions(c1);
    HatsAreInvolutions(c2);
    HatsAreInvolutions(c3);
    ChunksOfJoin(MatMul(c0, M_HAT_0), MatMul(c1, M_HAT_1), MatMul(c2, M_HAT_1), MatMul(c3, M_HAT_0));
    JoinOfChunks(x);
  }

  // -------------------------------------------------------------------------
  // ShiftRows and the full M layer
  // -------------------------------------------------------------------------

  function ShiftRows(x: bv64): bv64 {
    (x & 0xF000_F000_F000_F000) | (x & 0x0F00_0F00_0F00_0F00).RotateLeft(16)
    | (x & 0x00F0_00F0_00F0_00F0).RotateRight(32) | (x & 0x000F_000F_000F_000F).RotateRight(16)
  }

  function ShiftRowsInv(x: bv64): bv64 {
    (x & 0xF000_F000_F000_F000) | (x & 0x0F00_0F00_0F00_0F00).RotateRight(16)
    | (x & 0x00F0_00F0_00F0_00F0).RotateLeft(32) | (x & 0x000F_000F_000F_000F).RotateLeft(16)
  }

  lemma ShiftRowsInverse(x: bv64)
    ensures ShiftRowsInv(ShiftRows(x)) == x && ShiftRows(ShiftRowsInv(x)) == x
  {
  }

  lemma ShiftedRow3(x: bv64)
    ensures var y := ShiftRows(x);
            && Nibble3(Chunk0(y)) == Nibble3(Chunk0(x)) && Nibble3(Chunk1(y)) == Nibble3(Chunk1(x))
            && Nibble3(Chunk2(y)) == Nibble3(Chunk2(x)) && Nibble3(Chunk3(y)) == Nibble3(Chunk3(x))
  {
  }

  lemma ShiftedRow2(x: bv64)
    ensures var y := ShiftRows(x);
            && Nibble2(Chunk0(y)) == Nibble2(Chunk3(x)) && Nibble2(Chunk1(y)) == Nibble2(Chunk0(x))
            && Nibble2(Chunk2(y)) == Nibble2(Chunk1(x)) && Nibble2(Chunk3(y)) == Nibble2(Chunk2(x))
  {
  }

  lemma ShiftedRow1(x: bv64)
    ensures var y := ShiftRows(x);
            && Nibble1(Chunk0(y)) == Nibble1(Chunk2(x)) && Nibble1(Chunk1(y)) == Nibble1(Chunk3(x))
            && Nibble1(Chunk2(y)) == Nibble1(Chunk0(x)) && Nibble1(Chunk3(y)) == Nibble1(Chunk1(x))
  {
  }

  lemma ShiftedRow0(x: bv64)
    ensures var y := ShiftRows(x);
            && Nibble0(Chunk0(y)) == Nibble0(Chunk1(x)) && Nibble0(Chunk1(y)) == Nibble0(Chunk2(x))
            && Nibble0(Chunk2(y)) == Nibble0(Chunk3(x)) && Nibble0(Chunk3(y)) == Nibble0(Chunk0(x))
  {
  }

  /** Row `r` of the nibble matrix moves by `r` columns, the top row stays. */
  lemma ShiftRowsMovesRows(x: bv64)
    ensures var y := ShiftRows(x);
            && Nibble3(Chunk0(y)) == Nibble3(Chunk0(x)) && Nibble3(Chunk1(y)) == Nibble3(Chunk1(x))
            && Nibble3(Chunk2(y)) == Nibble3(Chunk2(x)) && Nibble3(Chunk3(y)) == Nibble3(Chunk3(x))
            && Nibble2(Chunk0(y)) == Nibble2(Chunk3(x)) && Nibble2(Chunk1(y)) == Nibble2(Chunk0(x))
            && Nibble2(Chunk2(y)) == Nibble2(Chunk1(x)) && Nibble2(Chunk3(y)) == Nibble2(Chunk2(x))
            && Nibble1(Chunk0(y)) == Nibble1(Chunk2(x)) && Nibble1(Chunk1(y)) == Nibble1(Chunk3(x))
            && Nibble1(Chunk2(y)) == Nibble1(Chunk0(x)) && Nibble1(Chunk3(y)) == Nibble1(Chunk1(x))
            && Nibble0(Chunk0(y)) == Nibble0(Chunk1(x)) && Nibble0(Chunk1(y)) == Nibble0(Chunk2(x))
            && Nibble0(Chunk2(y)) == Nibble0(Chunk3(x)) && Nibble0(Chunk3(y)) == Nibble0(Chunk0(x))
  {
    hide ShiftRows, Nibble0, Nibble1, Nibble2, Nibble3, Chunk0, Chunk1, Chunk2, Chunk3;
    ShiftedRow0(x);
    ShiftedRow1(x);
    ShiftedRow2(x);
    ShiftedRow3(x);
  }

  function MLayer(x: bv64): bv64 {
    ShiftRows(MPrime(x))
  }

  function MLayerInv(x: bv64): bv64 {
    MPrime(ShiftRowsInv(x))
  }

  lemma MLayersInverse(x: bv64)
    ensures MLayerInv(MLayer(x)) == x && MLayer(MLayerInv(x)) == x
  {
    hide ShiftRows, ShiftRowsInv, MPrime;
    ShiftRowsInverse(MPrime(x));
    ShiftRowsInverse(x);
    MPrimeInvolution(x);
    MPrimeInvolution(ShiftRowsInv(x));
  }

  // -------------------------------------------------------------------------
  // The core: five forward rounds, a middle layer, five backward rounds
  // -------------------------------------------------------------------------

  function ForwardRound(s: bv64, k: bv64): bv64 {
    AddKey(MLayer(SboxLayer(s)), k)
  }

  function BackwardRound(s: bv64, k: bv64): bv64 {
    SboxInvLayer(MLayerInv(AddKey(s, k)))
  }

  lemma RoundsInverse(s: bv64, k: bv64)
    ensures BackwardRound(ForwardRound(s, k), k) == s && ForwardRound(BackwardRound(s, k), k) == s
  {
    hide SboxLayer, SboxInvLayer, MLayer, MLayerInv, AddKey;
    AddKeyTwice(MLayer(SboxLayer(s)), k);
    MLayersInverse(SboxLayer(s));
    SboxLayersInverse(s);
    var t := AddKey(s, k);
    SboxLayersInverse(MLayerInv(t));
    MLayersInverse(t);
    AddKeyTwice(s, k);
  }

  function Middle(s: bv64): bv64 {
    SboxInvLayer(MPrime(SboxLayer(s)))
  }

  lemma MiddleInvolution(s: bv64)
    ensures Middle(Middle(s)) == s
  {
    hide SboxLayer, SboxInvLayer, MPrime;
    SboxLayersInverse(s);
    SboxLayersInverse(MPrime(SboxLayer(s)));
    MPrimeInvolution(SboxLayer(s));
  }

  /** Whitening and the first `n` forward rounds. */
  function Forward(s: bv64, k1: bv64, n: nat): bv64
    decreases n
  {
    if n == 0 then AddKey(s, RoundKey(k1, 0)) else ForwardRound(Forward(s, k1, n - 1), RoundKey(k1, n))
  }

  /** Backward rounds from `n` on and the final whitening. */
  function Backward(s: bv64, k1: bv64, n: nat): bv64
    decreases 11 - n
  {
    if n >= 11 then AddKey(s, RoundKey(k1, 11)) else Backward(BackwardRound(s, RoundKey(k1, n)), k1, n + 1)
  }

  function Core(block: bv64, k1: bv64): bv64 {
    Backward(Middle(Forward(block, k1, 5)), k1, 6)
  }

  lemma {:induction false} BackwardUndoesForward(s: bv64, k1: bv64, n: nat)
    requires n < 12
    ensures Backward(Forward(s, k1, n), Reflected(k1), 11 - n) == s
    decreases n
  {
    hide AddKey, ForwardRound, BackwardRound, RoundKey, Reflected;
    RoundKeysReflect(k1, n);
    if n == 0 {
      AddKeyTwice(s, RoundKey(k1, 0));
    } else {
      RoundsInverse(Forward(s, k1, n - 1), RoundKey(k1, n));
      BackwardUndoesForward(s, k1, n - 1);
    }
  }

  lemma {:induction false} ForwardUndoesBackward(s: bv64, k1: bv64, n: nat)
    requires n < 12
    ensures Forward(Backward(s, k1, 11 - n), Reflected(k1), n) == s
    decreases n
  {
    hide AddKey, ForwardRound, BackwardRound, RoundKey, Reflected;
    RoundKeysReflect(k1, 11 - n);
    if n == 0 {
      AddKeyTwice(s, RoundKey(k1, 11));
    } else {
      ForwardUndoesBackward(BackwardRound(s, RoundKey(k1, 11 - n)), k1, n - 1);
      RoundsInverse(s, RoundKey(k1, 11 - n));
    }
  }

  /** Alpha-reflection: the core under `k1 ^ ALPHA` inverts the core under `k1`. */
  lemma CoreReflection(block: bv64, k1: bv64)
    ensures Core(Core(block, k1), Reflected(k1)) == block
  {
    hide Forward, Backward, Middle, Reflected;
    var f := Forward(block, k1, 5);
    ForwardUndoesBackward(Middle(f), k1, 5);
    MiddleInvolution(f);
    BackwardUndoesForward(block, k1, 5);
  }

  lemma ForwardStep(s: bv64, k1: bv64, n: nat)
    ensures Forward(s, k1, 0) == AddKey(s, RoundKey(k1, 0))
    ensures Forward(s, k1, n + 1) == ForwardRound(Forward(s, k1, n), RoundKey(k1, n + 1))
  {
    hide AddKey, ForwardRound, RoundKey;
  }

  lemma BackwardStep(s: bv64, k1: bv64, n: nat)
    ensures n < 11 ==> Backward(s, k1, n) == Backward(BackwardRound(s, RoundKey(k1, n)), k1, n + 1)
    ensures Backward(s, k1, 11) == AddKey(s, RoundKey(k1, 11))
  {
    hide AddKey, BackwardRound, RoundKey;
  }

  /** `prince_core_encrypt`, one assignment to the state per source line. */
  method CoreEncrypt(block: bv64, k1: bv64) returns (s: bv64)
    ensures s == Core(block, k1)
  {
    hide SboxLayer, SboxInvLayer, MPrime, Forward, Backward, ForwardRound, BackwardRound, AddKey, RoundKey;
    s := block;
    s := AddKey(s, RoundKey(k1, 0));
    ForwardStep(block, k1, 0);
    s := ForwardRound(s, RoundKey(k1, 1));
    ForwardStep(block, k1, 1);
    s := ForwardRound(s, RoundKey(k1, 2));
    ForwardStep(block, k1, 2);
    s := ForwardRound(s, RoundKey(k1, 3));
    ForwardStep(block, k1, 3);
    s := ForwardRound(s, RoundKey(k1, 4));
    ForwardStep(block, k1, 4);
    s := ForwardRound(s, RoundKey(k1, 5));
    s := SboxLayer(s);
    s := MPrime(s);
    s := SboxInvLayer(s);
    BackwardStep(s, k1, 6);
    s := BackwardRound(s, RoundKey(k1, 6));
    BackwardStep(s, k1, 7);
    s := BackwardRound(s, RoundKey(k1, 7));
    BackwardStep(s, k1, 8);
    s := BackwardRound(s, RoundKey(k1, 8));
    BackwardStep(s, k1, 9);
    s := BackwardRound(s, RoundKey(k1, 9));
    BackwardStep(s, k1, 10);
    s := BackwardRound(s, RoundKey(k1, 10));
    BackwardStep(s, k1, 11);
    s := AddKey(s, RoundKey(k1, 11));
  }

  // -------------------------------------------------------------------------
  // The cipher
  // -------------------------------------------------------------------------

  type Key = k: seq<Byte> | |k| == 16 witness seq(16, _ => 0)

  function K0(key: Key): bv64 { Be64(key[..8]) }
  function K1(key: Key): bv64 { Be64(key[8..]) }

  function K0Prime(k0: bv64): bv64 {
    k0.RotateRight(1) ^ (k0 >> 63)
  }

  function UnK0Prime(k: bv64): bv64 {
    (k ^ ((k >> 62) & 1)).RotateLeft(1)
  }

  lemma K0PrimeRaw(k: bv64)
    ensures K0Prime(k) == k.RotateRight(1) ^ (k >> 63) && UnK0Prime(k) == (k ^ ((k >> 62) & 1)).RotateLeft(1)
    ensures UnK0Prime(k.RotateRight(1) ^ (k >> 63)) == k && K0Prime((k ^ ((k >> 62) & 1)).RotateLeft(1)) == k
  {
  }

  /** The derived whitening key determines the first one and takes every value. */
  lemma K0PrimeInverse(k: bv64)
    ensures UnK0Prime(K0Prime(k)) == k && K0Prime(UnK0Prime(k)) == k
  {
    hide K0Prime, UnK0Prime;
    K0PrimeRaw(k);
  }

  function Encrypt(block: bv64, key: Key): bv64 {
    AddKey(Core(AddKey(block, K0(key)), K1(key)), K0Prime(K0(key)))
  }

  function Decrypt(block: bv64, key: Key): bv64 {
    AddKey(Core(AddKey(block, K0Prime(K0(key))), Reflected(K1(key))), K0(key))
  }

  lemma DecryptEncrypt(block: bv64, key: Key)
    ensures Decrypt(Encrypt(block, key), key) == block
  {
    hide AddKey, Core, K0, K1, K0Prime, Reflected;
    var input := AddKey(block, K0(key));
    AddKeyTwice(Core(input, K1(key)), K0Prime(K0(key)));
    CoreReflection(input, K1(key));
    AddKeyTwice(block, K0(key));
  }

  lemma EncryptDecrypt(block: bv64, key: Key)
    ensures Encrypt(Decrypt(block, key), key) == block
  {
    hide AddKey, Core, K0, K1, K0Prime, Reflected;
    var input := AddKey(block, K0Prime(K0(key)));
    AddKeyTwice(Core(input, Reflected(K1(key))), K0(key));
    CoreReflection(input, Reflected(K1(key)));
    ReflectedTwice(K1(key));
    AddKeyTwice(block, K0Prime(K0(key)));
  }

  /** Whitening: the key `k0` acts on the outside only. With `plain` the same key but a zero
      first half, the block is xored with `k0` before and with `k0'` after. */
  lemma Whitening(block: bv64, key: Key, plain: Key)
    requires Be64(plain[..8]) == 0 && Be64(plain[8..]) == Be64(key[8..])
    ensures Encrypt(block, key) == AddKey(Encrypt(AddKey(block, Be64(key[..8])), plain), K0Prime(Be64(key[..8])))
  {
    assert K0Prime(0) == 0;
    hide Core, K0Prime, Be64;
    ZeroKey(AddKey(block, K0(key)));
    hide AddKey;
    ZeroKey(Core(AddKey(block, K0(key)), K1(key)));
  }

  lemma ZeroKey(x: bv64)
    ensures AddKey(x, 0) == x
  {
  }
}
