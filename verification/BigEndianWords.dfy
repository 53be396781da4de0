/** Thirty-two bit words and their four bytes, most significant byte first. */
module BigEndianWords {

  function Word(b: seq<bv8>, i: nat): bv32
    requires i + 4 <= |b|
  {
    (b[i] as bv32 << 24) | (b[i + 1] as bv32 << 16) | (b[i + 2] as bv32 << 8) | (b[i + 3] as bv32)
  }

  function ByteOf(w: bv32, k: nat): bv8
    requires k < 4
  {
    if k == 0 then ((w >> 24) & 0xff) as bv8
    else if k == 1 then ((w >> 16) & 0xff) as bv8
    else if k == 2 then ((w >> 8) & 0xff) as bv8
    else (w & 0xff) as bv8
  }

  // ---------- Bits ----------

  predicate Bit(w: bv32, i: bv32)
    requires i < 32
  {
    (w >> i) & 1 == 1
  }

  /** What holds of every bit's number, one by one. */
  ghost predicate Everywhere(p: bv32 -> bool) {
    && p(0) && p(1) && p(2) && p(3) && p(4) && p(5) && p(6) && p(7)
    && p(8) && p(9) && p(10) && p(11) && p(12) && p(13) && p(14) && p(15)
    && p(16) && p(17) && p(18) && p(19) && p(20) && p(21) && p(22) && p(23)
    && p(24) && p(25) && p(26) && p(27) && p(28) && p(29) && p(30) && p(31)
  }

  lemma EverywhereAt(p: bv32 -> bool, i: bv32)
    requires Everywhere(p) && i < 32
    ensures p(i)
  {}

  // ---------- Bytes ----------

  /** The first byte counts most. */
  lemma WordSum(b: seq<bv8>, i: nat)
    requires i + 4 <= |b|
    ensures Word(b, i) ==
            0x100_0000 * (b[i] as bv32) + 0x1_0000 * (b[i + 1] as bv32) + 0x100 * (b[i + 2] as bv32) + (b[i + 3] as bv32)
  {}

  lemma BytesOfWord(w: bv32)
    ensures Word([ByteOf(w, 0), ByteOf(w, 1), ByteOf(w, 2), ByteOf(w, 3)], 0) == w
  {}

  lemma WordOfBytes(b: seq<bv8>, i: nat)
    requires i + 4 <= |b|
    ensures ByteOf(Word(b, i), 0) == b[i] && ByteOf(Word(b, i), 1) == b[i + 1]
    ensures ByteOf(Word(b, i), 2) == b[i + 2] && ByteOf(Word(b, i), 3) == b[i + 3]
  {}
}
