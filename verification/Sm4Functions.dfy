/** The functions of one word in SM4's rounds and key schedule, as the kernel
    computes them, and as GB/T 32907-2016 describes them. */
module Sm4Functions {
  import opened Sm4Tables
  import opened BigEndianWords

  // ---------- The kernel's functions ----------

  function Xor4(p: bv32, q: bv32, r: bv32, s: bv32): bv32 { p ^ q ^ r ^ s }

  function T(x: bv32): bv32 {
    Xor4(Lookup(T0, ByteOf(x, 0)), Lookup(T1, ByteOf(x, 1)), Lookup(T2, ByteOf(x, 2)), Lookup(T3, ByteOf(x, 3)))
  }

  function Tau(x: bv32): bv32 {
    Joined(Lookup(SBOX, ByteOf(x, 0)), Lookup(SBOX, ByteOf(x, 1)), Lookup(SBOX, ByteOf(x, 2)), Lookup(SBOX, ByteOf(x, 3)))
  }

  function Joined(a: bv8, b: bv8, c: bv8, d: bv8): bv32 {
    (a as bv32 << 24) | (b as bv32 << 16) | (c as bv32 << 8) | (d as bv32)
  }

  /** With the two calls of rotl written out. */
  function LPrime(x: bv32): bv32 {
    x ^ ((x << 13) | (x >> 19)) ^ ((x << 23) | (x >> 9))
  }

  function TPrime(x: bv32): bv32 {
    LPrime(Tau(x))
  }

  // ---------- What they compute ----------

  /** Each byte goes through the S-box (section 6.2.1). */
  lemma TauBytes(x: bv32)
    ensures ByteOf(Tau(x), 0) == Lookup(SBOX, ByteOf(x, 0)) && ByteOf(Tau(x), 1) == Lookup(SBOX, ByteOf(x, 1))
    ensures ByteOf(Tau(x), 2) == Lookup(SBOX, ByteOf(x, 2)) && ByteOf(Tau(x), 3) == Lookup(SBOX, ByteOf(x, 3))
  {
    JoinedBytes(Lookup(SBOX, ByteOf(x, 0)), Lookup(SBOX, ByteOf(x, 1)),
                Lookup(SBOX, ByteOf(x, 2)), Lookup(SBOX, ByteOf(x, 3)));
  }

  lemma JoinedBytes(a: bv8, b: bv8, c: bv8, d: bv8)
    ensures var w := Joined(a, b, c, d); ByteOf(w, 0) == a && ByteOf(w, 1) == b && ByteOf(w, 2) == c && ByteOf(w, 3) == d
  {}

  /** Bit i is the sum of bits i, i - 13 and i - 23, round the end of the word. */
  predicate LPrimeBit(x: bv32, i: bv32) {
    i < 32 && Bit(LPrime(x), i) == (Bit(x, i) != (Bit(x, (i - 13) & 31) != Bit(x, (i - 23) & 31)))
  }

  /** The linear map of the key schedule (section 7.3) adds three bits. */
  lemma LPrimeBits(x: bv32)
    ensures forall i :: i < 32 ==> LPrimeBit(x, i)
  {
    var p := i => LPrimeBit(x, i);
    assert Everywhere(p);
    forall i | i < 32 ensures LPrimeBit(x, i) { EverywhereAt(p, i); }
  }

  // ---------- The rounds' function ----------

  /** The linear map of the rounds (section 6.2.2), with its four rotations written
      out. */
  function L(b: bv32): bv32 {
    b ^ ((b << 2) | (b >> 30)) ^ ((b << 10) | (b >> 22)) ^ ((b << 18) | (b >> 14)) ^ ((b << 24) | (b >> 8))
  }

  /** An entry of a table: the map of the S-box's byte n places up. */
  predicate Entry(s: bv8, t: bv32, n: bv32) {
    n < 32 && t == L(s as bv32 << n)
  }

  predicate RowAgrees(s: seq<bv8>, t: seq<bv32>, n: bv32) {
    && |s| == |t| == 16
    && Entry(s[0], t[0], n) && Entry(s[1], t[1], n) && Entry(s[2], t[2], n) && Entry(s[3], t[3], n)
    && Entry(s[4], t[4], n) && Entry(s[5], t[5], n) && Entry(s[6], t[6], n) && Entry(s[7], t[7], n)
    && Entry(s[8], t[8], n) && Entry(s[9], t[9], n) && Entry(s[10], t[10], n) && Entry(s[11], t[11], n)
    && Entry(s[12], t[12], n) && Entry(s[13], t[13], n) && Entry(s[14], t[14], n) && Entry(s[15], t[15], n)
  }

  lemma T0Row0() ensures RowAgrees(SBOX_0, T0_0, 24) {}
  lemma T1Row0() ensures RowAgrees(SBOX_0, T1_0, 16) {}
  lemma T2Row0() ensures RowAgrees(SBOX_0, T2_0, 8) {}
  lemma T3Row0() ensures RowAgrees(SBOX_0, T3_0, 0) {}
  lemma T0Row1() ensures RowAgrees(SBOX_1, T0_1, 24) {}
  lemma T1Row1() ensures RowAgrees(SBOX_1, T1_1, 16) {}
  lemma T2Row1() ensures RowAgrees(SBOX_1, T2_1, 8) {}
  lemma T3Row1() ensures RowAgrees(SBOX_1, T3_1, 0) {}
  lemma T0Row2() ensures RowAgrees(SBOX_2, T0_2, 24) {}
  lemma T1Row2() ensures RowAgrees(SBOX_2, T1_2, 16) {}
  lemma T2Row2() ensures RowAgrees(SBOX_2, T2_2, 8) {}
  lemma T3Row2() ensures RowAgrees(SBOX_2, T3_2, 0) {}
  lemma T0Row3() ensures RowAgrees(SBOX_3, T0_3, 24) {}
  lemma T1Row3() ensures RowAgrees(SBOX_3, T1_3, 16) {}
  lemma T2Row3() ensures RowAgrees(SBOX_3, T2_3, 8) {}
  lemma T3Row3() ensures RowAgrees(SBOX_3, T3_3, 0) {}
  lemma T0Row4() ensures RowAgrees(SBOX_4, T0_4, 24) {}
  lemma T1Row4() ensures RowAgrees(SBOX_4, T1_4, 16) {}
  lemma T2Row4() ensures RowAgrees(SBOX_4, T2_4, 8) {}
  lemma T3Row4() ensures RowAgrees(SBOX_4, T3_4, 0) {}
  lemma T0Row5() ensures RowAgrees(SBOX_5, T0_5, 24) {}
  lemma T1Row5() ensures RowAgrees(SBOX_5, T1_5, 16) {}
  lemma T2Row5() ensures RowAgrees(SBOX_5, T2_5, 8) {}
  lemma T3Row5() ensures RowAgrees(SBOX_5, T3_5, 0) {}
  lemma T0Row6() ensures RowAgrees(SBOX_6, T0_6, 24) {}
  lemma T1Row6() ensures RowAgrees(SBOX_6, T1_6, 16) {}
  lemma T2Row6() ensures RowAgrees(SBOX_6, T2_6, 8) {}
  lemma T3Row6() ensures RowAgrees(SBOX_6, T3_6, 0) {}
  lemma T0Row7() ensures RowAgrees(SBOX_7, T0_7, 24) {}
  lemma T1Row7() ensures RowAgrees(SBOX_7, T1_7, 16) {}
  lemma T2Row7() ensures RowAgrees(SBOX_7, T2_7, 8) {}
  lemma T3Row7() ensures RowAgrees(SBOX_7, T3_7, 0) {}
  lemma T0Row8() ensures RowAgrees(SBOX_8, T0_8, 24) {}
  lemma T1Row8() ensures RowAgrees(SBOX_8, T1_8, 16) {}
  lemma T2Row8() ensures RowAgrees(SBOX_8, T2_8, 8) {}
  lemma T3Row8() ensures RowAgrees(SBOX_8, T3_8, 0) {}
  lemma T0Row9() ensures RowAgrees(SBOX_9, T0_9, 24) {}
  lemma T1Row9() ensures RowAgrees(SBOX_9, T1_9, 16) {}
  lemma T2Row9() ensures RowAgrees(SBOX_9, T2_9, 8) {}
  lemma T3Row9() ensures RowAgrees(SBOX_9, T3_9, 0) {}
  lemma T0RowA() ensures RowAgrees(SBOX_A, T0_A, 24) {}
  lemma T1RowA() ensures RowAgrees(SBOX_A, T1_A, 16) {}
  lemma T2RowA() ensures RowAgrees(SBOX_A, T2_A, 8) {}
  lemma T3RowA() ensures RowAgrees(SBOX_A, T3_A, 0) {}
  lemma T0RowB() ensures RowAgrees(SBOX_B, T0_B, 24) {}
  lemma T1RowB() ensures RowAgrees(SBOX_B, T1_B, 16) {}
  lemma T2RowB() ensures RowAgrees(SBOX_B, T2_B, 8) {}
  lemma T3RowB() ensures RowAgrees(SBOX_B, T3_B, 0) {}
  lemma T0RowC() ensures RowAgrees(SBOX_C, T0_C, 24) {}
  lemma T1RowC() ensures RowAgrees(SBOX_C, T1_C, 16) {}
  lemma T2RowC() ensures RowAgrees(SBOX_C, T2_C, 8) {}
  lemma T3RowC() ensures RowAgrees(SBOX_C, T3_C, 0) {}
  lemma T0RowD() ensures RowAgrees(SBOX_D, T0_D, 24) {}
  lemma T1RowD() ensures RowAgrees(SBOX_D, T1_D, 16) {}
  lemma T2RowD() ensures RowAgrees(SBOX_D, T2_D, 8) {}
  lemma T3RowD() ensures RowAgrees(SBOX_D, T3_D, 0) {}
  lemma T0RowE() ensures RowAgrees(SBOX_E, T0_E, 24) {}
  lemma T1RowE() ensures RowAgrees(SBOX_E, T1_E, 16) {}
  lemma T2RowE() ensures RowAgrees(SBOX_E, T2_E, 8) {}
  lemma T3RowE() ensures RowAgrees(SBOX_E, T3_E, 0) {}
  lemma T0RowF() ensures RowAgrees(SBOX_F, T0_F, 24) {}
  lemma T1RowF() ensures RowAgrees(SBOX_F, T1_F, 16) {}
  lemma T2RowF() ensures RowAgrees(SBOX_F, T2_F, 8) {}
  lemma T3RowF() ensures RowAgrees(SBOX_F, T3_F, 0) {}

  /** Every row of a table agrees. */
  ghost predicate TableAgrees(t: WordTable, n: bv32) {
    forall r :: 0 <= r < 16 ==> RowAgrees(SBOX[r], t[r], n)
  }

  lemma T0Upper(r: nat)
    requires 0 <= r < 8
    ensures RowAgrees(SBOX[r], T0[r], 24)
  {
    match r
    case 0 => T0Row0();
    case 1 => T0Row1();
    case 2 => T0Row2();
    case 3 => T0Row3();
    case 4 => T0Row4();
    case 5 => T0Row5();
    case 6 => T0Row6();
    case 7 => T0Row7();
  }

  lemma T0Lower(r: nat)
    requires 8 <= r < 16
    ensures RowAgrees(SBOX[r], T0[r], 24)
  {
    match r
    case 8 => T0Row8();
    case 9 => T0Row9();
    case 10 => T0RowA();
    case 11 => T0RowB();
    case 12 => T0RowC();
    case 13 => T0RowD();
    case 14 => T0RowE();
    case 15 => T0RowF();
  }

  lemma T0Agrees()
    ensures TableAgrees(T0, 24)
  {
    forall r | 0 <= r < 16
      ensures RowAgrees(SBOX[r], T0[r], 24)
    {
      if r < 8 { T0Upper(r); } else { T0Lower(r); }
    }
  }

  lemma T1Upper(r: nat)
    requires 0 <= r < 8
    ensures RowAgrees(SBOX[r], T1[r], 16)
  {
    match r
    case 0 => T1Row0();
    case 1 => T1Row1();
    case 2 => T1Row2();
    case 3 => T1Row3();
    case 4 => T1Row4();
    case 5 => T1Row5();
    case 6 => T1Row6();
    case 7 => T1Row7();
  }

  lemma T1Lower(r: nat)
    requires 8 <= r < 16
    ensures RowAgrees(SBOX[r], T1[r], 16)
  {
    match r
    case 8 => T1Row8();
    case 9 => T1Row9();
    case 10 => T1RowA();
    case 11 => T1RowB();
    case 12 => T1RowC();
    case 13 => T1RowD();
    case 14 => T1RowE();
    case 15 => T1RowF();
  }

  lemma T1Agrees()
    ensures TableAgrees(T1, 16)
  {
    forall r | 0 <= r < 16
      ensures RowAgrees(SBOX[r], T1[r], 16)
    {
      if r < 8 { T1Upper(r); } else { T1Lower(r); }
    }
  }

  lemma T2Upper(r: nat)
    requires 0 <= r < 8
    ensures RowAgrees(SBOX[r], T2[r], 8)
  {
    match r
    case 0 => T2Row0();
    case 1 => T2Row1();
    case 2 => T2Row2();
    case 3 => T2Row3();
    case 4 => T2Row4();
    case 5 => T2Row5();
    case 6 => T2Row6();
    case 7 => T2Row7();
  }

  lemma T2Lower(r: nat)
    requires 8 <= r < 16
    ensures RowAgrees(SBOX[r], T2[r], 8)
  {
    match r
    case 8 => T2Row8();
    case 9 => T2Row9();
    case 10 => T2RowA();
    case 11 => T2RowB();
    case 12 => T2RowC();
    case 13 => T2RowD();
    case 14 => T2RowE();
    case 15 => T2RowF();
  }

  lemma T2Agrees()
    ensures TableAgrees(T2, 8)
  {
    forall r | 0 <= r < 16
      ensures RowAgrees(SBOX[r], T2[r], 8)
    {
      if r < 8 { T2Upper(r); } else { T2Lower(r); }
    }
  }

  lemma T3Upper(r: nat)
    requires 0 <= r < 8
    ensures RowAgrees(SBOX[r], T3[r], 0)
  {
    match r
    case 0 => T3Row0();
    case 1 => T3Row1();
    case 2 => T3Row2();
    case 3 => T3Row3();
    case 4 => T3Row4();
    case 5 => T3Row5();
    case 6 => T3Row6();
    case 7 => T3Row7();
  }

  lemma T3Lower(r: nat)
    requires 8 <= r < 16
    ensures RowAgrees(SBOX[r], T3[r], 0)
  {
    match r
    case 8 => T3Row8();
    case 9 => T3Row9();
    case 10 => T3RowA();
    case 11 => T3RowB();
    case 12 => T3RowC();
    case 13 => T3RowD();
    case 14 => T3RowE();
    case 15 => T3RowF();
  }

  lemma T3Agrees()
    ensures TableAgrees(T3, 0)
  {
    forall r | 0 <= r < 16
      ensures RowAgrees(SBOX[r], T3[r], 0)
    {
      if r < 8 { T3Upper(r); } else { T3Lower(r); }
    }
  }

  lemma EntryOf(s: seq<bv8>, t: seq<bv32>, n: bv32, c: nat)
    requires RowAgrees(s, t, n) && c < 16
    ensures Entry(s[c], t[c], n)
  {
    match c
    case 0 => case 1 => case 2 => case 3 => case 4 => case 5 => case 6 => case 7 =>
    case 8 => case 9 => case 10 => case 11 => case 12 => case 13 => case 14 => case 15 =>
  }

  /** All 256 entries of a table. */
  lemma Entries(t: WordTable, n: bv32, i: bv8)
    requires TableAgrees(t, n)
    ensures Entry(Lookup(SBOX, i), Lookup(t, i), n)
  {
    var r, c := (i >> 4) as int, (i & 0xf) as int;
    EntryOf(SBOX[r], t[r], n, c);
  }

  /** The map of four bytes is the sum of the maps of each, written out. */
  lemma LParts(a: bv8, b: bv8, c: bv8, d: bv8)
    ensures L((a as bv32 << 24) | (b as bv32 << 16) | (c as bv32 << 8) | (d as bv32)) == Xor4(
              (a as bv32 << 24) ^ (((a as bv32 << 24) << 2) | ((a as bv32 << 24) >> 30))
                ^ (((a as bv32 << 24) << 10) | ((a as bv32 << 24) >> 22))
                ^ (((a as bv32 << 24) << 18) | ((a as bv32 << 24) >> 14))
                ^ (((a as bv32 << 24) << 24) | ((a as bv32 << 24) >> 8)),
              (b as bv32 << 16) ^ (((b as bv32 << 16) << 2) | ((b as bv32 << 16) >> 30))
                ^ (((b as bv32 << 16) << 10) | ((b as bv32 << 16) >> 22))
                ^ (((b as bv32 << 16) << 18) | ((b as bv32 << 16) >> 14))
                ^ (((b as bv32 << 16) << 24) | ((b as bv32 << 16) >> 8)),
              (c as bv32 << 8) ^ (((c as bv32 << 8) << 2) | ((c as bv32 << 8) >> 30))
                ^ (((c as bv32 << 8) << 10) | ((c as bv32 << 8) >> 22))
                ^ (((c as bv32 << 8) << 18) | ((c as bv32 << 8) >> 14))
                ^ (((c as bv32 << 8) << 24) | ((c as bv32 << 8) >> 8)),
              (d as bv32) ^ (((d as bv32) << 2) | ((d as bv32) >> 30))
                ^ (((d as bv32) << 10) | ((d as bv32) >> 22)) ^ (((d as bv32) << 18) | ((d as bv32) >> 14))
                ^ (((d as bv32) << 24) | ((d as bv32) >> 8)))
  {}

  /** The four tables together are the S-box and the linear map after it. */
  lemma TIsLTau(x: bv32)
    ensures T(x) == L(Tau(x))
  {
    T0Agrees();
    T1Agrees();
    T2Agrees();
    T3Agrees();
    var a, b, c, d := ByteOf(x, 0), ByteOf(x, 1), ByteOf(x, 2), ByteOf(x, 3);
    Entries(T0, 24, a);
    Entries(T1, 16, b);
    Entries(T2, 8, c);
    Entries(T3, 0, d);
    SumOfEntries(Lookup(SBOX, a), Lookup(SBOX, b), Lookup(SBOX, c), Lookup(SBOX, d),
                 Lookup(T0, a), Lookup(T1, b), Lookup(T2, c), Lookup(T3, d));
  }

  lemma SumOfEntries(a: bv8, b: bv8, c: bv8, d: bv8, p: bv32, q: bv32, r: bv32, s: bv32)
    requires Entry(a, p, 24) && Entry(b, q, 16) && Entry(c, r, 8) && Entry(d, s, 0)
    ensures Xor4(p, q, r, s) == L(Joined(a, b, c, d))
  {
    EntryAt24(a, p);
    EntryAt16(b, q);
    EntryAt8(c, r);
    EntryAt0(d, s);
    LParts(a, b, c, d);
  }

  lemma EntryAt24(a: bv8, p: bv32)
    requires Entry(a, p, 24)
    ensures p == (a as bv32 << 24) ^ (((a as bv32 << 24) << 2) | ((a as bv32 << 24) >> 30))
                 ^ (((a as bv32 << 24) << 10) | ((a as bv32 << 24) >> 22))
                 ^ (((a as bv32 << 24) << 18) | ((a as bv32 << 24) >> 14))
                 ^ (((a as bv32 << 24) << 24) | ((a as bv32 << 24) >> 8))
  {}

  lemma EntryAt16(a: bv8, p: bv32)
    requires Entry(a, p, 16)
    ensures p == (a as bv32 << 16) ^ (((a as bv32 << 16) << 2) | ((a as bv32 << 16) >> 30))
                 ^ (((a as bv32 << 16) << 10) | ((a as bv32 << 16) >> 22))
                 ^ (((a as bv32 << 16) << 18) | ((a as bv32 << 16) >> 14))
                 ^ (((a as bv32 << 16) << 24) | ((a as bv32 << 16) >> 8))
  {}

  lemma EntryAt8(a: bv8, p: bv32)
    requires Entry(a, p, 8)
    ensures p == (a as bv32 << 8) ^ (((a as bv32 << 8) << 2) | ((a as bv32 << 8) >> 30))
                 ^ (((a as bv32 << 8) << 10) | ((a as bv32 << 8) >> 22))
                 ^ (((a as bv32 << 8) << 18) | ((a as bv32 << 8) >> 14))
                 ^ (((a as bv32 << 8) << 24) | ((a as bv32 << 8) >> 8))
  {}

  lemma EntryAt0(a: bv8, p: bv32)
    requires Entry(a, p, 0)
    ensures p == (a as bv32) ^ (((a as bv32) << 2) | ((a as bv32) >> 30))
                 ^ (((a as bv32) << 10) | ((a as bv32) >> 22))
                 ^ (((a as bv32) << 18) | ((a as bv32) >> 14)) ^ (((a as bv32) << 24) | ((a as bv32) >> 8))
  {}
}
