/** The standard's example of one block, the message "abc": its schedule, its working
    variables after every eighth round, and its digest. */
module Sha256Example {
  import opened BigEndianWords
  import opened Sha256Functions
  import opened Sha256Core
  import opened Sha256

  const ABC: seq<bv8> := [0x61, 0x62, 0x63]

  // The message schedule, in rows of eight.

  const W_0: seq<bv32> := [0x61626380, 0x00000000, 0x00000000, 0x00000000, 0x00000000, 0x00000000, 0x00000000, 0x00000000]
  const W_1: seq<bv32> := [0x00000000, 0x00000000, 0x00000000, 0x00000000, 0x00000000, 0x00000000, 0x00000000, 0x00000018]
  const W_2: seq<bv32> := [0x61626380, 0x000f0000, 0x7da86405, 0x600003c6, 0x3e9d7b78, 0x0183fc00, 0x12dcbfdb, 0xe2e2c38e]
  const W_3: seq<bv32> := [0xc8215c1a, 0xb73679a2, 0xe5bc3909, 0x32663c5b, 0x9d209d67, 0xec8726cb, 0x702138a4, 0xd3b7973b]
  const W_4: seq<bv32> := [0x93f5997f, 0x3b68ba73, 0xaff4ffc1, 0xf10a5c62, 0x0a8b3996, 0x72af830a, 0x9409e33e, 0x24641522]
  const W_5: seq<bv32> := [0x9f47bf94, 0xf0a64f5a, 0x3e246a79, 0x27333ba3, 0x0c4763f2, 0x840abf27, 0x7a290d5d, 0x065c43da]
  const W_6: seq<bv32> := [0xfb3e89cb, 0xcc7617db, 0xb9e66c34, 0xa9993667, 0x84badedd, 0xc21462bc, 0x1487472c, 0xb20f7a99]
  const W_7: seq<bv32> := [0xef57b9cd, 0xebe6b238, 0x9fe3095e, 0x78bc8d4b, 0xa43fcf15, 0x668b2ff8, 0xeeaba2cc, 0x12b1edeb]

  // The working variables before the first round and after every eighth.

  const V_0: Vars<bv32> := Vars(0x6a09e667, 0xbb67ae85, 0x3c6ef372, 0xa54ff53a, 0x510e527f, 0x9b05688c, 0x1f83d9ab, 0x5be0cd19)
  const V_1: Vars<bv32> := Vars(0x85a07b5f, 0xe5030380, 0x2b4209f5, 0x04409a6a, 0x0c657a79, 0x9b27a401, 0x714260ad, 0x43ada245)
  const V_2: Vars<bv32> := Vars(0xb0fa238e, 0xc0645fde, 0xd932eb16, 0x87912990, 0x07590dcd, 0x0b92f20c, 0x745a48de, 0x1e578218)
  const V_3: Vars<bv32> := Vars(0xc5d53d8d, 0xa7a3623f, 0xc2606d6d, 0x9dc68b63, 0xaa47c347, 0x49f5114a, 0xe1257970, 0x8ada8930)
  const V_4: Vars<bv32> := Vars(0x73b33bf5, 0xea992a22, 0xa0060b30, 0x363482c9, 0xba591112, 0x0109ab3a, 0xade79437, 0x6112a3b7)
  const V_5: Vars<bv32> := Vars(0x79ea687a, 0x6dc57a8a, 0x34df1604, 0x41a65cb1, 0x1efbc0a0, 0xf0781bc8, 0xa507a53d, 0x0772a26b)
  const V_6: Vars<bv32> := Vars(0x4172328d, 0xa14c14b0, 0x72ab4b91, 0x26628815, 0xfecf0bc6, 0xd57b94a9, 0xb7755da1, 0xa80f11f0)
  const V_7: Vars<bv32> := Vars(0x38cc9913, 0x3ec45cdb, 0xf5702fdb, 0x101fd28f, 0x54cb266b, 0xe50e1b4f, 0x9f4787c3, 0x529e7d00)
  const V_8: Vars<bv32> := Vars(0x506e3058, 0xd39a2165, 0x04d24d6c, 0xb85e2ce9, 0x5ef50f24, 0xfb121210, 0x948d25b6, 0x961f4894)

  // ---------- The schedule ----------

  /** Four words from the sixteen before them, in fours. */
  predicate Follow<W(==)>(sched: Schedule<W>, a: seq<W>, b: seq<W>, c: seq<W>, d: seq<W>, x: seq<W>) {
    && |a| == |b| == |c| == |d| == |x| == 4
    && x[0] == sched(d[2], c[1], a[1], a[0]) && x[1] == sched(d[3], c[2], a[2], a[1])
    && x[2] == sched(x[0], c[3], a[3], a[2]) && x[3] == sched(x[1], d[0], b[0], a[3])
  }

  /** A row of eight from the two rows before it. */
  predicate RowFollows<W(==)>(sched: Schedule<W>, a: seq<W>, b: seq<W>, c: seq<W>) {
    && |a| == |b| == |c| == 8
    && c[0] == sched(b[6], b[1], a[1], a[0]) && c[1] == sched(b[7], b[2], a[2], a[1])
    && c[2] == sched(c[0], b[3], a[3], a[2]) && c[3] == sched(c[1], b[4], a[4], a[3])
    && c[4] == sched(c[2], b[5], a[5], a[4]) && c[5] == sched(c[3], b[6], a[6], a[5])
    && c[6] == sched(c[4], b[7], a[7], a[6]) && c[7] == sched(c[5], c[0], b[0], a[7])
  }

  lemma ExpandFour<W>(sched: Schedule<W>, m: seq<W>, pre: seq<W>, a: seq<W>, b: seq<W>, c: seq<W>, d: seq<W>, x: seq<W>,
                      n: nat)
    requires |m| == 16 && Follow(sched, a, b, c, d, x) && n == |pre| + 16 && Expand(sched, m, n) == pre + a + b + c + d
    ensures Expand(sched, m, n + 4) == pre + a + b + c + d + x
  {
    var w := pre + a + b + c + d;
    ExpandOne(sched, m, w, n, x[0]);
    ExpandOne(sched, m, w + [x[0]], n + 1, x[1]);
    ExpandOne(sched, m, w + [x[0]] + [x[1]], n + 2, x[2]);
    ExpandOne(sched, m, w + [x[0]] + [x[1]] + [x[2]], n + 3, x[3]);
    assert w + [x[0]] + [x[1]] + [x[2]] + [x[3]] == w + x;
  }

  lemma ExpandOne<W>(sched: Schedule<W>, m: seq<W>, w: seq<W>, n: nat, x: W)
    requires |m| == 16 <= n && Expand(sched, m, n) == w && x == sched(w[n - 2], w[n - 7], w[n - 15], w[n - 16])
    ensures Expand(sched, m, n + 1) == w + [x]
  {}

  lemma ExpandRow<W>(sched: Schedule<W>, m: seq<W>, pre: seq<W>, a: seq<W>, b: seq<W>, c: seq<W>, n: nat)
    requires |m| == 16 && RowFollows(sched, a, b, c) && n == |pre| + 16 && Expand(sched, m, n) == pre + a + b
    ensures Expand(sched, m, n + 8) == pre + a + b + c
  {
    assert pre + a[..4] + a[4..] + b[..4] + b[4..] == pre + a + b;
    ExpandFour(sched, m, pre, a[..4], a[4..], b[..4], b[4..], c[..4], n);
    ExpandFour(sched, m, pre + a[..4], a[4..], b[..4], b[4..], c[..4], c[4..], n + 4);
    assert pre + a[..4] + a[4..] + b[..4] + b[4..] + c[..4] + c[4..] == pre + a + b + c;
  }

  lemma Words2()
    ensures RowFollows(ScheduleWord, W_0, W_1, W_2)
  {}

  lemma Words3()
    ensures RowFollows(ScheduleWord, W_1, W_2, W_3)
  {}

  lemma Words4()
    ensures RowFollows(ScheduleWord, W_2, W_3, W_4)
  {}

  lemma Words5()
    ensures RowFollows(ScheduleWord, W_3, W_4, W_5)
  {}

  lemma Words6()
    ensures RowFollows(ScheduleWord, W_4, W_5, W_6)
  {}

  lemma Words7()
    ensures RowFollows(ScheduleWord, W_5, W_6, W_7)
  {}

  function Words(): (w: seq<bv32>)
    ensures |w| == 64
  {
    W_0 + W_1 + W_2 + W_3 + W_4 + W_5 + W_6 + W_7
  }

  lemma WordsAre()
    ensures Expand(ScheduleWord, W_0 + W_1, 64) == Words()
  {
    var m, pre := W_0 + W_1, W_0 + W_1 + W_2;
    FirstWords(m);
    Words5();
    Words6();
    Words7();
    ExpandRow(ScheduleWord, m, pre, W_3, W_4, W_5, 40);
    ExpandRow(ScheduleWord, m, pre + W_3, W_4, W_5, W_6, 48);
    ExpandRow(ScheduleWord, m, pre + W_3 + W_4, W_5, W_6, W_7, 56);
  }

  lemma FirstWords(m: seq<bv32>)
    requires m == W_0 + W_1
    ensures |m| == 16 && Expand(ScheduleWord, m, 40) == W_0 + W_1 + W_2 + W_3 + W_4
  {
    Words2();
    Words3();
    Words4();
    assert [] + W_0 + W_1 == m && [] + W_0 == W_0;
    ExpandRow(ScheduleWord, m, [], W_0, W_1, W_2, 16);
    ExpandRow(ScheduleWord, m, W_0, W_1, W_2, W_3, 24);
    ExpandRow(ScheduleWord, m, W_0 + W_1, W_2, W_3, W_4, 32);
  }

  // ---------- The rounds ----------

  lemma Rounds0()
    ensures Rounds(Round, V_0, K_0, W_0, 8) == V_1
  {}

  lemma Rounds1()
    ensures Rounds(Round, V_1, K_1, W_1, 8) == V_2
  {}

  lemma Rounds2()
    ensures Rounds(Round, V_2, K_2, W_2, 8) == V_3
  {}

  lemma Rounds3()
    ensures Rounds(Round, V_3, K_3, W_3, 8) == V_4
  {}

  lemma Rounds4()
    ensures Rounds(Round, V_4, K_4, W_4, 8) == V_5
  {}

  lemma Rounds5()
    ensures Rounds(Round, V_5, K_5, W_5, 8) == V_6
  {}

  lemma Rounds6()
    ensures Rounds(Round, V_6, K_6, W_6, 8) == V_7
  {}

  lemma Rounds7()
    ensures Rounds(Round, V_7, K_7, W_7, 8) == V_8
  {}

  /** Rounds over two rows, one after the other. */
  lemma {:induction false} RoundsRow<W>(round: RoundFn<W>, v: Vars<W>, k: seq<W>, l: seq<W>, w: seq<W>, x: seq<W>, n: nat)
    requires |k| == |w| && n <= |l| == |x|
    ensures Rounds(round, v, k + l, w + x, |k| + n) == Rounds(round, Rounds(round, v, k, w, |k|), l, x, n)
  {
    if n > 0 {
      RoundsRow(round, v, k, l, w, x, n - 1);
    } else {
      RoundsPrefix(round, v, k, l, w, x, |k|);
    }
  }

  lemma {:induction false} RoundsPrefix<W>(round: RoundFn<W>, v: Vars<W>, k: seq<W>, l: seq<W>, w: seq<W>, x: seq<W>, n: nat)
    requires |k| == |w| && n <= |k| && |l| == |x|
    ensures Rounds(round, v, k + l, w + x, n) == Rounds(round, v, k, w, n)
  {
    if n > 0 {
      RoundsPrefix(round, v, k, l, w, x, n - 1);
    }
  }

  /** Two rows more. */
  lemma RoundsHalf<W>(round: RoundFn<W>, v: Vars<W>, k: seq<W>, a: seq<W>, b: seq<W>, w: seq<W>, x: seq<W>, y: seq<W>,
                      n: nat, s: Vars<W>, t: Vars<W>, u: Vars<W>)
    requires |k| == |w| == n && |a| == |b| == |x| == |y| == 8
    requires Rounds(round, v, k, w, n) == s && Rounds(round, s, a, x, 8) == t && Rounds(round, t, b, y, 8) == u
    ensures Rounds(round, v, k + a + b, w + x + y, n + 16) == u
  {
    RoundsRow(round, v, k, a, w, x, 8);
    RoundsRow(round, v, k + a, b, w + x, y, 8);
  }

  lemma RoundsAre()
    ensures Rounds(Round, V_0, K, Words(), 64) == V_8
  {
    var k, w := K_0 + K_1 + K_2 + K_3, W_0 + W_1 + W_2 + W_3;
    FirstHalf(k, w);
    MoreRounds(k, w);
    LastRounds(k + K_4 + K_5, w + W_4 + W_5);
  }

  lemma MoreRounds(k: seq<bv32>, w: seq<bv32>)
    requires |k| == |w| == 32 && Rounds(Round, V_0, k, w, 32) == V_4
    ensures |K_4| == |K_5| == |W_4| == |W_5| == 8 && Rounds(Round, V_0, k + K_4 + K_5, w + W_4 + W_5, 48) == V_6
  {
    Rounds4();
    Rounds5();
    RoundsHalf(Round, V_0, k, K_4, K_5, w, W_4, W_5, 32, V_4, V_5, V_6);
  }

  lemma LastRounds(k: seq<bv32>, w: seq<bv32>)
    requires |k| == |w| == 48 && Rounds(Round, V_0, k, w, 48) == V_6
    ensures |K_6| == |K_7| == |W_6| == |W_7| == 8 && Rounds(Round, V_0, k + K_6 + K_7, w + W_6 + W_7, 64) == V_8
  {
    Rounds6();
    Rounds7();
    RoundsHalf(Round, V_0, k, K_6, K_7, w, W_6, W_7, 48, V_6, V_7, V_8);
  }

  lemma FirstHalf(k: seq<bv32>, w: seq<bv32>)
    requires k == K_0 + K_1 + K_2 + K_3 && w == W_0 + W_1 + W_2 + W_3
    ensures |k| == |w| == 32 && Rounds(Round, V_0, k, w, 32) == V_4
  {
    Rounds0();
    Rounds1();
    Rounds2();
    Rounds3();
    RoundsRow(Round, V_0, K_0, K_1, W_0, W_1, 8);
    RoundsHalf(Round, V_0, K_0 + K_1, K_2, K_3, W_0 + W_1, W_2, W_3, 16, V_2, V_3, V_4);
  }

  // ---------- The digest ----------

  /** The message, the bit 1, zeros and the length in bits. */
  predicate IsAbcBlock(b: seq<bv8>) {
    && |b| == 64 && b[0] == 0x61 && b[1] == 0x62 && b[2] == 0x63 && b[3] == 0x80
    && (forall i :: 4 <= i < 63 ==> b[i] == 0) && b[63] == 24
  }

  lemma AbcPadded()
    ensures |Parse(ABC + Padding(3))| == 1 && IsAbcBlock(Parse(ABC + Padding(3))[0])
  {
    AbcLength();
    AbcBytes(BigEndian(24, 8));
    var b := ABC + Padding(3);
    assert b[0..64] == b;
  }

  lemma AbcLength()
    ensures var len := BigEndian(24, 8); (forall i :: 0 <= i < 7 ==> len[i] == 0) && len[7] == 24
  {
    LengthBytes(24);
  }

  lemma AbcBytes(len: seq<bv8>)
    requires |len| == 8 && (forall i :: 0 <= i < 7 ==> len[i] == 0) && len[7] == 24
    ensures IsAbcBlock(ABC + ([0x80] + Sha256.Zeros(52) + len))
  {}

  lemma AbcWords(b: Block)
    requires IsAbcBlock(b)
    ensures BlockWords(b) == W_0 + W_1
  {
    forall i | 1 <= i < 15
      ensures Word(b, 4 * i) == 0
    {
      WordSum(b, 4 * i);
    }
    WordSum(b, 0);
    WordSum(b, 60);
  }

  /** The hash value after the one block. */
  const HASH: seq<bv32> := [0xba7816bf, 0x8f01cfea, 0x414140de, 0x5dae2223, 0xb00361a3, 0x96177a9c, 0xb410ff61, 0xf20015ad]

  lemma AbcCompressed(b: Block)
    requires BlockWords(b) == W_0 + W_1
    ensures Compress(H0, b) == HASH
  {
    WordsAre();
    RoundsAre();
    assert VarsOf(H0) == V_0;
    assert SumWith(Plus, H0, V_8) == HASH;
  }

  lemma HashBytes()
    ensures |HASH| == 8 && DigestBytes(HASH) == DIGEST
  {}

  const DIGEST: seq<bv8> := [
    0xba, 0x78, 0x16, 0xbf, 0x8f, 0x01, 0xcf, 0xea, 0x41, 0x41, 0x40, 0xde, 0x5d, 0xae, 0x22, 0x23,
    0xb0, 0x03, 0x61, 0xa3, 0x96, 0x17, 0x7a, 0x9c, 0xb4, 0x10, 0xff, 0x61, 0xf2, 0x00, 0x15, 0xad
  ]

  /** The published digest. */
  lemma AbcDigest()
    ensures Hash(ABC) == DIGEST
  {
    AbcPadded();
    var blocks := Parse(ABC + Padding(3));
    AbcWords(blocks[0]);
    AbcCompressed(blocks[0]);
    assert Fold<Digest>(Compress, H0, blocks) == Compress(H0, blocks[0]);
    HashBytes();
  }
}
