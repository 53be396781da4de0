/** The SHA-256 of FIPS 180-4 as the standard states it, next to the bit
    functions as the kernel's macros compute them. */
module Sha256Functions {
  import opened BigEndianWords

  // Section 4.2.2: the constants of the rounds, in rows of eight.

  const K_0: seq<bv32> := [0x428a2f98, 0x71374491, 0xb5c0fbcf, 0xe9b5dba5, 0x3956c25b, 0x59f111f1, 0x923f82a4, 0xab1c5ed5]
  const K_1: seq<bv32> := [0xd807aa98, 0x12835b01, 0x243185be, 0x550c7dc3, 0x72be5d74, 0x80deb1fe, 0x9bdc06a7, 0xc19bf174]
  const K_2: seq<bv32> := [0xe49b69c1, 0xefbe4786, 0x0fc19dc6, 0x240ca1cc, 0x2de92c6f, 0x4a7484aa, 0x5cb0a9dc, 0x76f988da]
  const K_3: seq<bv32> := [0x983e5152, 0xa831c66d, 0xb00327c8, 0xbf597fc7, 0xc6e00bf3, 0xd5a79147, 0x06ca6351, 0x14292967]
  const K_4: seq<bv32> := [0x27b70a85, 0x2e1b2138, 0x4d2c6dfc, 0x53380d13, 0x650a7354, 0x766a0abb, 0x81c2c92e, 0x92722c85]
  const K_5: seq<bv32> := [0xa2bfe8a1, 0xa81a664b, 0xc24b8b70, 0xc76c51a3, 0xd192e819, 0xd6990624, 0xf40e3585, 0x106aa070]
  const K_6: seq<bv32> := [0x19a4c116, 0x1e376c08, 0x2748774c, 0x34b0bcb5, 0x391c0cb3, 0x4ed8aa4a, 0x5b9cca4f, 0x682e6ff3]
  const K_7: seq<bv32> := [0x748f82ee, 0x78a5636f, 0x84c87814, 0x8cc70208, 0x90befffa, 0xa4506ceb, 0xbef9a3f7, 0xc67178f2]

  const K: seq<bv32> := K_0 + K_1 + K_2 + K_3 + K_4 + K_5 + K_6 + K_7

  /** Section 5.3.3. */
  const H0: seq<bv32> := [
    0x6a09e667, 0xbb67ae85, 0x3c6ef372, 0xa54ff53a, 0x510e527f, 0x9b05688c, 0x1f83d9ab, 0x5be0cd19
  ]

  datatype Vars<W> = Vars(a: W, b: W, c: W, d: W, e: W, f: W, g: W, h: W)

  // ---------- Section 4.1.2 ----------

  function Ch(x: bv32, y: bv32, z: bv32): bv32 { (x & y) ^ (!x & z) }

  function Maj(x: bv32, y: bv32, z: bv32): bv32 { (x & y) ^ (x & z) ^ (y & z) }

  /** Section 3.2. */
  function Rotr(x: bv32, n: bv32): bv32
    requires 0 < n < 32
  {
    (x >> n) | (x << (32 - n))
  }

  function Xor(a: bv32, b: bv32, c: bv32): bv32 { a ^ b ^ c }

  function BigSigma0(x: bv32): bv32 { Xor(Rotr(x, 2), Rotr(x, 13), Rotr(x, 22)) }

  function BigSigma1(x: bv32): bv32 { Xor(Rotr(x, 6), Rotr(x, 11), Rotr(x, 25)) }

  function SmallSigma0(x: bv32): bv32 { Xor(Rotr(x, 7), Rotr(x, 18), x >> 3) }

  function SmallSigma1(x: bv32): bv32 { Xor(Rotr(x, 17), Rotr(x, 19), x >> 10) }

  // ---------- What they compute ----------

  /** Two words have the same bits wherever the mask has ones. */
  predicate SameWhere(a: bv32, b: bv32, mask: bv32) {
    a & mask == b & mask
  }

  /** Ch takes y's bit where x's is 1 and z's where it is 0. */
  lemma ChChooses(x: bv32, y: bv32, z: bv32)
    ensures SameWhere(Ch(x, y, z), y, x) && SameWhere(Ch(x, y, z), z, !x)
  {}

  /** Every bit of `m` is one that `x` and `y` have, where they agree. */
  predicate Shared(x: bv32, y: bv32, m: bv32) {
    x & y & !m == 0 && !x & !y & m == 0
  }

  /** Maj takes the bit of any two of its arguments that agree. */
  lemma MajVotes(x: bv32, y: bv32, z: bv32)
    ensures Shared(x, y, Maj(x, y, z)) && Shared(x, z, Maj(x, y, z)) && Shared(y, z, Maj(x, y, z))
  {
    FirstTwo(x, y, z);
    FirstAndLast(x, y, z);
    LastTwo(x, y, z);
  }

  lemma FirstTwo(x: bv32, y: bv32, z: bv32)
    ensures Shared(x, y, Maj(x, y, z))
  {}

  lemma FirstAndLast(x: bv32, y: bv32, z: bv32)
    ensures Shared(x, z, Maj(x, y, z))
  {}

  lemma LastTwo(x: bv32, y: bv32, z: bv32)
    ensures Shared(y, z, Maj(x, y, z))
  {}

  /** A word turned to the right: the lower half of two copies of it, shifted. */
  function Turned(x: bv32, n: bv64): bv32
    requires n < 32
  {
    ((((x as bv64 << 32) | (x as bv64)) >> n) & 0xffff_ffff) as bv32
  }

  lemma RotrTurns(x: bv32)
    ensures Rotr(x, 2) == Turned(x, 2) && Rotr(x, 13) == Turned(x, 13) && Rotr(x, 22) == Turned(x, 22)
    ensures Rotr(x, 6) == Turned(x, 6) && Rotr(x, 11) == Turned(x, 11) && Rotr(x, 25) == Turned(x, 25)
    ensures Rotr(x, 7) == Turned(x, 7) && Rotr(x, 18) == Turned(x, 18)
    ensures Rotr(x, 17) == Turned(x, 17) && Rotr(x, 19) == Turned(x, 19)
  {}

  // ---------- The kernel's macros ----------

  function ChMacro(x: bv32, y: bv32, z: bv32): bv32 { (x & y) ^ ((!x) & z) }

  function MajMacro(x: bv32, y: bv32, z: bv32): bv32 { (x & y) ^ (x & z) ^ (y & z) }

  function RotlMacro(a: bv32, b: bv32): bv32
    requires 0 < b < 32
  {
    ((a >> (32 - b)) & ((0x7fffffff as bv32) >> (31 - b))) | (a << b)
  }

  function SrMacro(a: bv32, b: bv32): bv32
    requires 0 < b < 32
  {
    (a >> b) & ((0x7fffffff as bv32) >> (b - 1))
  }

  function E0(x: bv32): bv32 { Xor(RotlMacro(x, 30), RotlMacro(x, 19), RotlMacro(x, 10)) }

  function E1(x: bv32): bv32 { Xor(RotlMacro(x, 26), RotlMacro(x, 21), RotlMacro(x, 7)) }

  function O0(x: bv32): bv32 { Xor(RotlMacro(x, 25), RotlMacro(x, 14), SrMacro(x, 3)) }

  function O1(x: bv32): bv32 { Xor(RotlMacro(x, 15), RotlMacro(x, 13), SrMacro(x, 10)) }

  /** A masked shift to the left and back is a rotation to the right. */
  lemma RotationsAgree(x: bv32)
    ensures RotlMacro(x, 30) == Rotr(x, 2) && RotlMacro(x, 19) == Rotr(x, 13) && RotlMacro(x, 10) == Rotr(x, 22)
    ensures RotlMacro(x, 26) == Rotr(x, 6) && RotlMacro(x, 21) == Rotr(x, 11) && RotlMacro(x, 7) == Rotr(x, 25)
    ensures RotlMacro(x, 25) == Rotr(x, 7) && RotlMacro(x, 14) == Rotr(x, 18) && SrMacro(x, 3) == x >> 3
    ensures RotlMacro(x, 15) == Rotr(x, 17) && RotlMacro(x, 13) == Rotr(x, 19) && SrMacro(x, 10) == x >> 10
  {}

  lemma SigmasAgree(x: bv32)
    ensures E0(x) == BigSigma0(x) && E1(x) == BigSigma1(x)
    ensures O0(x) == SmallSigma0(x) && O1(x) == SmallSigma1(x)
  {
    RotationsAgree(x);
  }

  // ---------- Section 6.2.2 ----------

  /** The message schedule's new word (step 1): `s1` and `s0` are the small
      sigmas of W[t-2] and W[t-15]. */
  function ScheduleSum(s1: bv32, w7: bv32, s0: bv32, w16: bv32): bv32 {
    s1 + w7 + s0 + w16
  }

  /** One round (step 3), with the functions of the variables. */
  function RoundSum(v: Vars<bv32>, s0: bv32, s1: bv32, ch: bv32, maj: bv32, k: bv32, w: bv32): Vars<bv32> {
    var t1 := v.h + s1 + ch + k + w;
    var t2 := s0 + maj;
    Vars(t1 + t2, v.a, v.b, v.c, v.d + t1, v.e, v.f, v.g)
  }

  function ScheduleWord(w2: bv32, w7: bv32, w15: bv32, w16: bv32): bv32 {
    ScheduleSum(SmallSigma1(w2), w7, SmallSigma0(w15), w16)
  }

  function Round(v: Vars<bv32>, k: bv32, w: bv32): Vars<bv32> {
    RoundSum(v, BigSigma0(v.a), BigSigma1(v.e), Ch(v.e, v.f, v.g), Maj(v.a, v.b, v.c), k, w)
  }

  // ---------- The kernel's schedule and rounds ----------

  function ScheduleAssigned(o1: bv32, w7: bv32, o0: bv32, w16: bv32): bv32 {
    o1 + w7 + o0 + w16
  }

  /** The assignments of one round, after those to T1 and T2. */
  function RoundAssigned(v: Vars<bv32>, e0: bv32, e1: bv32, ch: bv32, maj: bv32, k: bv32, w: bv32): Vars<bv32> {
    var t1 := v.h + e1 + ch + k + w;
    var t2 := e0 + maj;
    var shifted := v.(h := v.g, g := v.f, f := v.e, d := v.c, c := v.b, b := v.a);
    shifted.(e := v.d + t1, a := t1 + t2)
  }

  function ScheduleMacro(w2: bv32, w7: bv32, w15: bv32, w16: bv32): bv32 {
    ScheduleAssigned(O1(w2), w7, O0(w15), w16)
  }

  function RoundMacro(v: Vars<bv32>, k: bv32, w: bv32): Vars<bv32> {
    RoundAssigned(v, E0(v.a), E1(v.e), ChMacro(v.e, v.f, v.g), MajMacro(v.a, v.b, v.c), k, w)
  }

  lemma SumsAgree()
    ensures forall a, b, c, d :: ScheduleAssigned(a, b, c, d) == ScheduleSum(a, b, c, d)
    ensures forall v, a, b, c, d, k, w :: RoundAssigned(v, a, b, c, d, k, w) == RoundSum(v, a, b, c, d, k, w)
  {}

  lemma MacroBits(x: bv32, y: bv32, z: bv32)
    ensures ChMacro(x, y, z) == Ch(x, y, z) && MajMacro(x, y, z) == Maj(x, y, z)
  {}

  /** The left rotations and masked shifts of the macros are the standard's
      functions, and so are the schedule and the rounds made of them. */
  lemma MacrosAgree()
    ensures forall a, b, c, d :: ScheduleMacro(a, b, c, d) == ScheduleWord(a, b, c, d)
    ensures forall v, k, w :: RoundMacro(v, k, w) == Round(v, k, w)
  {
    forall a, b, c, d
      ensures ScheduleMacro(a, b, c, d) == ScheduleWord(a, b, c, d)
    {
      SumsAgree();
      SigmasAgree(a);
      SigmasAgree(c);
    }
    forall v, k, w
      ensures RoundMacro(v, k, w) == Round(v, k, w)
    {
      SumsAgree();
      SigmasAgree(v.a);
      SigmasAgree(v.e);
      MacroBits(v.e, v.f, v.g);
      MacroBits(v.a, v.b, v.c);
    }
  }
}
