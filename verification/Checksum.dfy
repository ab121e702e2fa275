/** The Internet checksum (RFC 1071) and the incremental update (RFC 1624) that
    `update_addr_csum` performs through `bpf_csum_diff` and `l4_csum_replace`. */
module Checksum {
  import opened Words
  import opened Addresses

  const ONES: nat := 0xFFFF

  function Word(hi: Byte, lo: Byte): (w: nat)
    ensures w <= ONES
  {
    (hi as nat) * 256 + (lo as nat)
  }

  function WordBytes(w: nat): (b: seq<Byte>)
    requires w <= ONES
    ensures |b| == 2
  {
    [(w / 256) as Byte, (w % 256) as Byte]
  }

  lemma NextByte(b: Byte)
    requires b != 255
    ensures (b + 1) as nat == b as nat + 1
  {
  }

  lemma SameByte(b: Byte)
    ensures (b as nat) as Byte == b
  {
  }

  lemma {:induction false} ByteWithValue(n: nat) returns (b: Byte)
    requires n < 256
    ensures b as nat == n
  {
    if n == 0 {
      b := 0;
    } else {
      var c := ByteWithValue(n - 1);
      NextByte(c);
      b := c + 1;
    }
  }

  lemma ByteValue(n: nat)
    requires n < 256
    ensures (n as Byte) as nat == n
  {
    var b := ByteWithValue(n);
    SameByte(b);
  }

  lemma WordOfBytes(w: nat)
    requires w <= ONES
    ensures Word(WordBytes(w)[0], WordBytes(w)[1]) == w
  {
    ByteValue(w / 256);
    ByteValue(w % 256);
  }

  /** Sum of the 16-bit words of a byte string, an odd last byte padded with zero. */
  function WordSum(s: seq<Byte>): nat {
    if |s| == 0 then 0
    else if |s| == 1 then Word(s[0], 0)
    else Word(s[0], s[1]) + WordSum(s[2..])
  }

  lemma {:induction false} WordSumSplit(a: seq<Byte>, b: seq<Byte>)
    requires |a| % 2 == 0
    ensures WordSum(a + b) == WordSum(a) + WordSum(b)
  {
    if |a| == 0 {
      assert a + b == b;
    } else {
      assert (a + b)[2..] == a[2..] + b;
      WordSumSplit(a[2..], b);
    }
  }

  /** Sum of the complemented words. */
  function ComplementSum(s: seq<Byte>): nat {
    if |s| == 0 then 0
    else if |s| == 1 then ONES - Word(s[0], 0)
    else (ONES - Word(s[0], s[1])) + ComplementSum(s[2..])
  }

  lemma {:induction false} ComplementOfWords(s: seq<Byte>)
    requires |s| % 2 == 0
    ensures ComplementSum(s) + WordSum(s) == ONES * (|s| / 2)
  {
    if |s| > 0 {
      ComplementOfWords(s[2..]);
    }
  }

  // -------------------------------------------------------------------------
  // One's complement arithmetic
  // -------------------------------------------------------------------------

  /** End-around carry until the value fits in 16 bits. */
  function Fold(n: nat): (f: nat)
    ensures f <= ONES
  {
    if n <= ONES then n else Fold(n % 0x10000 + n / 0x10000)
  }

  ghost predicate Congruent(a: int, b: int) {
    (a - b) % 65535 == 0
  }

  lemma Quotient(a: int, b: int) returns (q: int)
    requires Congruent(a, b)
    ensures a == b + 65535 * q
  {
    q := (a - b) / 65535;
  }

  lemma FromQuotient(a: int, b: int, q: int)
    requires a == b + 65535 * q
    ensures Congruent(a, b)
  {
  }

  lemma CongruentTransitive(a: int, b: int, c: int)
    requires Congruent(a, b) && Congruent(b, c)
    ensures Congruent(a, c)
  {
    var q := Quotient(a, b);
    var r := Quotient(b, c);
    FromQuotient(a, c, q + r);
  }

  lemma CarryKeepsResidue(n: nat)
    ensures Congruent(n % 0x10000 + n / 0x10000, n)
  {
    FromQuotient(n % 0x10000 + n / 0x10000, n, -(n / 0x10000));
  }

  lemma {:induction false} FoldKeepsResidue(n: nat)
    ensures Congruent(Fold(n), n) && (Fold(n) == 0 <==> n == 0)
  {
    if n > ONES {
      var m := n % 0x10000 + n / 0x10000;
      CarryKeepsResidue(n);
      FoldKeepsResidue(m);
      CongruentTransitive(Fold(m), m, n);
    }
  }

  /** A sum verifies (folds to all ones) exactly when it is a positive multiple of 65535. */
  lemma FoldIsOnes(n: nat)
    ensures Fold(n) == ONES <==> n > 0 && n % 65535 == 0
  {
    hide Fold, Congruent;
    FoldKeepsResidue(n);
    var q := Quotient(Fold(n), n);
    if Fold(n) == ONES {
      assert n == 65535 * (1 - q);
    }
    if n % 65535 == 0 {
      assert Fold(n) == 65535 * (n / 65535 + q);
    }
  }

  // -------------------------------------------------------------------------
  // Incremental update
  // -------------------------------------------------------------------------

  /** `bpf_csum_diff` with seed 0: the complemented old words and the new words. */
  function CsumDiff(oldAddr: Address, newAddr: Address): nat {
    ComplementSum(oldAddr) + WordSum(newAddr)
  }

  /** `l4_csum_replace` with a precomputed difference: the field is complemented as a
      32-bit sum, so the folded sum is never zero and the result never all ones. */
  function ApplyDiff(field: nat, diff: nat): (f: nat)
    requires field <= ONES
    ensures f <= ONES
  {
    ONES - Fold(diff + (0xFFFF_FFFF - field))
  }

  /** `update_addr_csum` */
  function UpdateAddrCsum(field: nat, oldAddr: Address, newAddr: Address): (f: nat)
    requires field <= ONES
    ensures f <= ONES
  {
    ApplyDiff(field, CsumDiff(oldAddr, newAddr))
  }

  /** One update moves the field by exactly the difference of the two addresses. */
  lemma UpdateResidue(field: nat, oldAddr: Address, newAddr: Address)
    requires field <= ONES
    ensures Congruent(UpdateAddrCsum(field, oldAddr, newAddr) + WordSum(newAddr), field + WordSum(oldAddr))
  {
    hide Congruent, Fold, WordSum, ComplementSum;
    var n := CsumDiff(oldAddr, newAddr) + (0xFFFF_FFFF - field);
    ComplementOfWords(oldAddr);
    FoldKeepsResidue(n);
    var q := Quotient(Fold(n), n);
    FromQuotient(UpdateAddrCsum(field, oldAddr, newAddr) + WordSum(newAddr), field + WordSum(oldAddr), -q - 65544);
  }

  /** `l4_csum_replace` with a zero difference and the mark-mangled-zero flag keeps the field. */
  function MarkMangled(field: nat): nat
    requires field <= ONES
  {
    if field == 0 then 0
    else
      var f := ApplyDiff(field, 0);
      if f == 0 then ONES else f
  }

  lemma MarkMangledIsIdentity(field: nat)
    requires field <= ONES
    ensures MarkMangled(field) == field
  {
    hide Fold;
    var n := 0xFFFF_FFFF - field;
    FoldKeepsResidue(n);
    assert n == ONES - field + 65535 * 65536;
  }

  /** The order of the two bytes of every word does not matter: sums over swapped
      words are 256 times the sums over words, and 256 is invertible modulo 65535. */
  function SwappedSum(s: seq<Byte>): nat {
    if |s| == 0 then 0
    else if |s| == 1 then Word(0, s[0])
    else Word(s[1], s[0]) + SwappedSum(s[2..])
  }

  lemma {:induction false} ByteOrderIndependence(s: seq<Byte>)
    ensures Congruent(SwappedSum(s), 256 * WordSum(s))
  {
    hide Congruent;
    if |s| == 0 {
      FromQuotient(0, 0, 0);
    } else if |s| == 1 {
      FromQuotient(SwappedSum(s), 256 * WordSum(s), -(s[0] as int));
    } else {
      ByteOrderIndependence(s[2..]);
      var q := Quotient(SwappedSum(s[2..]), 256 * WordSum(s[2..]));
      FromQuotient(SwappedSum(s), 256 * WordSum(s), q - (s[0] as int));
    }
  }

  /** Hence a sum verifies in one byte order exactly when it does in the other. */
  lemma SwappedSumVerifies(s: seq<Byte>)
    ensures Congruent(SwappedSum(s), 0) <==> Congruent(WordSum(s), 0)
  {
    hide Congruent, SwappedSum, WordSum;
    ByteOrderIndependence(s);
    var q := Quotient(SwappedSum(s), 256 * WordSum(s));
    if Congruent(SwappedSum(s), 0) {
      var r := Quotient(SwappedSum(s), 0);
      FromQuotient(WordSum(s), 0, 256 * (r - q) - WordSum(s));
    }
    if Congruent(WordSum(s), 0) {
      var r := Quotient(WordSum(s), 0);
      FromQuotient(SwappedSum(s), 0, q + 256 * r);
    }
  }
}
