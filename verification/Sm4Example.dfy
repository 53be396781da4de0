/** The example of GB/T 32907-2016 (its first one): the round keys of a key, and the
    block that is the key's own bytes, encrypted under it. */
module Sm4Example {
  import opened Sm4Tables
  import opened Sm4Functions
  import opened BigEndianWords
  import opened Feistel
  import opened Sm4

  const KEY: seq<bv8> := [0x01, 0x23, 0x45, 0x67, 0x89, 0xAB, 0xCD, 0xEF, 0xFE, 0xDC, 0xBA, 0x98, 0x76, 0x54, 0x32, 0x10]
  const CIPHER: seq<bv8> := [0x68, 0x1E, 0xDF, 0x34, 0xD2, 0x06, 0x96, 0x5E, 0x86, 0xB3, 0xE9, 0x4F, 0x53, 0x6E, 0x42, 0x46]

  // The words of the key schedule: the masked key, then the round keys.

  const RK_0: seq<bv32> := [0xA292FFA1, 0xDF01FEBF, 0x99A12B0F, 0xC42410CC]
  const RK_1: seq<bv32> := [0xF12186F9, 0x41662B61, 0x5A6AB19A, 0x7BA92077]
  const RK_2: seq<bv32> := [0x367360F4, 0x776A0C61, 0xB6BB89B3, 0x24763151]
  const RK_3: seq<bv32> := [0xA520307C, 0xB7584DBD, 0xC30753ED, 0x7EE55B57]
  const RK_4: seq<bv32> := [0x6988608C, 0x30D895B7, 0x44BA14AF, 0x104495A1]
  const RK_5: seq<bv32> := [0xD120B428, 0x73B55FA3, 0xCC874966, 0x92244439]
  const RK_6: seq<bv32> := [0xE89E641F, 0x98CA015A, 0xC7159060, 0x99E1FD2E]
  const RK_7: seq<bv32> := [0xB79BD80C, 0x1D2115B0, 0x0E228AEB, 0xF1780C81]
  const RK_8: seq<bv32> := [0x428D3654, 0x62293496, 0x01CF72E5, 0x9124A012]

  const RK: seq<bv32> := RK_1 + RK_2 + RK_3 + RK_4 + RK_5 + RK_6 + RK_7 + RK_8

  // The words of the encryption: the block, then one word for each round.

  const X_0: seq<bv32> := [0x01234567, 0x89ABCDEF, 0xFEDCBA98, 0x76543210]
  const X_1: seq<bv32> := [0x27FAD345, 0xA18B4CB2, 0x11C1E22A, 0xCC13E2EE]
  const X_2: seq<bv32> := [0xF87C5BD5, 0x33220757, 0x77F4C297, 0x7A96F2EB]
  const X_3: seq<bv32> := [0x27DAC07F, 0x42DD0F19, 0xB8A5DA02, 0x907127FA]
  const X_4: seq<bv32> := [0x8B952B83, 0xD42B7C59, 0x2FFC5831, 0xF69E6888]
  const X_5: seq<bv32> := [0xAF2432C4, 0xED1EC85E, 0x55A3BA22, 0x124B18AA]
  const X_6: seq<bv32> := [0x6AE7725F, 0xF4CBA1F9, 0x1DCDFA10, 0x2FF60603]
  const X_7: seq<bv32> := [0xEFF24FDC, 0x6FE46B75, 0x893450AD, 0x7B938F4C]
  const X_8: seq<bv32> := [0x536E4246, 0x86B3E94F, 0xD206965E, 0x681EDF34]

  // ---------- Four rounds at a time ----------

  predicate FourSteps<W(==)>(mix: Mix<W>, x: seq<W>, k: seq<W>, y: seq<W>) {
    && |x| == |k| == |y| == 4
    && y[0] == mix(x[0], x[1], x[2], x[3], k[0]) && y[1] == mix(x[1], x[2], x[3], y[0], k[1])
    && y[2] == mix(x[2], x[3], y[0], y[1], k[2]) && y[3] == mix(x[3], y[0], y[1], y[2], k[3])
  }

  /** The first n rows, one after the other. */
  function Sum<X>(rows: seq<seq<X>>, n: nat): seq<X>
    requires n <= |rows|
  {
    if n == 0 then [] else Sum(rows, n - 1) + rows[n - 1]
  }

  lemma {:induction false} TraceSum<W>(mix: Mix<W>, x: seq<W>, ks: seq<W>, k: seq<W>, n: nat)
    requires |x| == 4 && n <= |ks|
    ensures Trace(mix, x, ks + k, n) == Trace(mix, x, ks, n)
  {
    if n > 0 { TraceSum(mix, x, ks, k, n - 1); }
  }

  lemma TraceOne<W>(mix: Mix<W>, x: seq<W>, rk: seq<W>, t: seq<W>, n: nat, y: W)
    requires |x| == 4 && n < |rk| && Trace(mix, x, rk, n) == t && y == mix(t[n], t[n + 1], t[n + 2], t[n + 3], rk[n])
    ensures Trace(mix, x, rk, n + 1) == t + [y]
  {}

  lemma TraceFour<W>(mix: Mix<W>, x: seq<W>, ks: seq<W>, k: seq<W>, pre: seq<W>, last: seq<W>, y: seq<W>)
    requires |x| == 4 && |pre| == |ks| && Trace(mix, x, ks, |ks|) == pre + last && FourSteps(mix, last, k, y)
    ensures Trace(mix, x, ks + k, |ks| + 4) == pre + last + y
  {
    var n, rk, t := |ks|, ks + k, pre + last;
    TraceSum(mix, x, ks, k, n);
    TraceOne(mix, x, rk, t, n, y[0]);
    TraceOne(mix, x, rk, t + [y[0]], n + 1, y[1]);
    TraceOne(mix, x, rk, t + [y[0]] + [y[1]], n + 2, y[2]);
    TraceOne(mix, x, rk, t + [y[0]] + [y[1]] + [y[2]], n + 3, y[3]);
    assert t + [y[0]] + [y[1]] + [y[2]] + [y[3]] == t + y;
  }

  /** Row after row. */
  lemma {:induction false} TraceRows<W>(mix: Mix<W>, xs: seq<seq<W>>, ks: seq<seq<W>>, n: nat)
    requires n <= |ks| && |xs| == |ks| + 1 && |xs[0]| == 4
    requires forall j :: 0 <= j < |ks| ==> FourSteps(mix, xs[j], ks[j], xs[j + 1])
    ensures |Sum(ks, n)| == |Sum(xs, n)| == 4 * n && Trace(mix, xs[0], Sum(ks, n), 4 * n) == Sum(xs, n + 1)
  {
    if n > 0 {
      TraceRows(mix, xs, ks, n - 1);
      TraceFour(mix, xs[0], Sum(ks, n - 1), ks[n - 1], Sum(xs, n - 1), xs[n - 1], xs[n]);
    } else {
      assert Sum(xs, 1) == xs[0];
    }
  }

  lemma {:induction false} TraceSame<W(!new)>(mix: Mix<W>, nix: Mix<W>, x: seq<W>, rk: seq<W>, n: nat)
    requires |x| == 4 && n <= |rk| && forall a, b, c, d, k :: mix(a, b, c, d, k) == nix(a, b, c, d, k)
    ensures Trace(mix, x, rk, n) == Trace(nix, x, rk, n)
  {
    if n > 0 { TraceSame(mix, nix, x, rk, n - 1); }
  }

  // ---------- One step ----------

  predicate InBytes(u: bv32, t: bv32, i0: bv8, i1: bv8, i2: bv8, i3: bv8, o0: bv8, o1: bv8, o2: bv8, o3: bv8) {
    && ByteOf(u, 0) == i0 && ByteOf(u, 1) == i1 && ByteOf(u, 2) == i2 && ByteOf(u, 3) == i3
    && Joined(o0, o1, o2, o3) == t
  }

  predicate LookedUp(i0: bv8, i1: bv8, i2: bv8, i3: bv8, o0: bv8, o1: bv8, o2: bv8, o3: bv8) {
    Lookup(SBOX, i0) == o0 && Lookup(SBOX, i1) == o1 && Lookup(SBOX, i2) == o2 && Lookup(SBOX, i3) == o3
  }

  /** Four bytes and what the S-box makes of them. */
  predicate Substituted(u: bv32, t: bv32, i0: bv8, i1: bv8, i2: bv8, i3: bv8, o0: bv8, o1: bv8, o2: bv8, o3: bv8) {
    InBytes(u, t, i0, i1, i2, i3, o0, o1, o2, o3) && LookedUp(i0, i1, i2, i3, o0, o1, o2, o3)
  }

  /** The word `t` comes out of the S-box for `u`, byte by byte. */
  ghost predicate Known(u: bv32, t: bv32) {
    exists i0, i1, i2, i3, o0, o1, o2, o3 :: Substituted(u, t, i0, i1, i2, i3, o0, o1, o2, o3)
  }

  lemma KnownTau(u: bv32, t: bv32)
    requires Known(u, t)
    ensures Tau(u) == t
  {
    var i0, i1, i2, i3, o0, o1, o2, o3 :| Substituted(u, t, i0, i1, i2, i3, o0, o1, o2, o3);
  }

  predicate Mixed(linear: bv32 -> bv32, a: bv32, b: bv32, c: bv32, d: bv32, k: bv32, y: bv32, u: bv32, t: bv32) {
    Inner(b, c, d, k) == u && a ^ linear(t) == y
  }

  ghost predicate KnownStep(linear: bv32 -> bv32, a: bv32, b: bv32, c: bv32, d: bv32, k: bv32, y: bv32) {
    exists u, t :: Known(u, t) && Mixed(linear, a, b, c, d, k, y, u, t)
  }

  function After(linear: bv32 -> bv32): bv32 -> bv32 {
    x => linear(Tau(x))
  }

  /** What is known of steps says what `mix` does. */
  ghost predicate Fits(linear: bv32 -> bv32, mix: Mix<bv32>) {
    forall a, b, c, d, k, y :: KnownStep(linear, a, b, c, d, k, y) ==> mix(a, b, c, d, k) == y
  }

  lemma AfterFits(linear: bv32 -> bv32)
    ensures Fits(linear, Around(After(linear)))
  {
    forall u, t | Known(u, t)
      ensures After(linear)(u) == linear(t)
    {
      KnownTau(u, t);
    }
    KnownFits(linear, After(linear));
  }

  lemma KnownFits(linear: bv32 -> bv32, f: bv32 -> bv32)
    requires forall u, t :: Known(u, t) ==> f(u) == linear(t)
    ensures Fits(linear, Around(f))
  {
    forall a, b, c, d, k, y | KnownStep(linear, a, b, c, d, k, y)
      ensures Around(f)(a, b, c, d, k) == y
    {
      var u, t :| Known(u, t) && Mixed(linear, a, b, c, d, k, y, u, t);
      AroundStep(f, a, b, c, d, k, y);
    }
  }

  lemma AroundStep(f: bv32 -> bv32, a: bv32, b: bv32, c: bv32, d: bv32, k: bv32, y: bv32)
    requires a ^ f(Inner(b, c, d, k)) == y
    ensures Around(f)(a, b, c, d, k) == y
  {}

  ghost predicate FourKnown(linear: bv32 -> bv32, x: seq<bv32>, k: seq<bv32>, y: seq<bv32>) {
    && |x| == |k| == |y| == 4
    && KnownStep(linear, x[0], x[1], x[2], x[3], k[0], y[0]) && KnownStep(linear, x[1], x[2], x[3], y[0], k[1], y[1])
    && KnownStep(linear, x[2], x[3], y[0], y[1], k[2], y[2]) && KnownStep(linear, x[3], y[0], y[1], y[2], k[3], y[3])
  }

  lemma FourKnownSteps(linear: bv32 -> bv32, mix: Mix<bv32>, x: seq<bv32>, k: seq<bv32>, y: seq<bv32>)
    requires Fits(linear, mix) && FourKnown(linear, x, k, y)
    ensures FourSteps(mix, x, k, y)
  {}

  lemma KnownRows(linear: bv32 -> bv32, mix: Mix<bv32>, xs: seq<seq<bv32>>, ks: seq<seq<bv32>>)
    requires Fits(linear, mix)
    requires |xs| == 9 && |ks| == 8 && |xs[0]| == 4 && forall j :: 0 <= j < 8 ==> FourKnown(linear, xs[j], ks[j], xs[j + 1])
    ensures |Sum(ks, 8)| == 32 && Trace(mix, xs[0], Sum(ks, 8), 32) == Sum(xs, 9)
  {
    forall j | 0 <= j < 8
      ensures FourSteps(mix, xs[j], ks[j], xs[j + 1])
    {
      FourKnownSteps(linear, mix, xs[j], ks[j], xs[j + 1]);
    }
    TraceRows(mix, xs, ks, 8);
  }

  lemma SumOfEight<X>(r: seq<seq<X>>)
    requires |r| >= 8
    ensures Sum(r, 8) == r[0] + r[1] + r[2] + r[3] + r[4] + r[5] + r[6] + r[7]
  {
    assert Sum(r, 1) == r[0] && Sum(r, 2) == r[0] + r[1] && Sum(r, 3) == r[0] + r[1] + r[2];
    assert Sum(r, 5) == r[0] + r[1] + r[2] + r[3] + r[4];
    assert Sum(r, 7) == r[0] + r[1] + r[2] + r[3] + r[4] + r[5] + r[6];
  }

  // ---------- The key schedule ----------

  lemma Key0() ensures KnownStep(LPrime, 0xA292FFA1, 0xDF01FEBF, 0x99A12B0F, 0xC42410CC, 0x00070E15, 0xF12186F9) {
    assert Substituted(0x8283CB69, 0x8AD24122, 0x82, 0x83, 0xCB, 0x69, 0x8A, 0xD2, 0x41, 0x22);
    assert Mixed(LPrime, 0xA292FFA1, 0xDF01FEBF, 0x99A12B0F, 0xC42410CC, 0x00070E15, 0xF12186F9, 0x8283CB69, 0x8AD24122);
  }
  lemma Key1() ensures KnownStep(LPrime, 0xDF01FEBF, 0x99A12B0F, 0xC42410CC, 0xF12186F9, 0x1C232A31, 0x41662B61) {
    assert Substituted(0xB087970B, 0xD5B555C2, 0xB0, 0x87, 0x97, 0x0B, 0xD5, 0xB5, 0x55, 0xC2);
    assert Mixed(LPrime, 0xDF01FEBF, 0x99A12B0F, 0xC42410CC, 0xF12186F9, 0x1C232A31, 0x41662B61, 0xB087970B, 0xD5B555C2);
  }
  lemma Key2() ensures KnownStep(LPrime, 0x99A12B0F, 0xC42410CC, 0xF12186F9, 0x41662B61, 0x383F464D, 0x5A6AB19A) {
    assert Substituted(0x4C5CFB19, 0xE6703E44, 0x4C, 0x5C, 0xFB, 0x19, 0xE6, 0x70, 0x3E, 0x44);
    assert Mixed(LPrime, 0x99A12B0F, 0xC42410CC, 0xF12186F9, 0x41662B61, 0x383F464D, 0x5A6AB19A, 0x4C5CFB19, 0xE6703E44);
  }
  lemma Key3() ensures KnownStep(LPrime, 0xC42410CC, 0xF12186F9, 0x41662B61, 0x5A6AB19A, 0x545B6269, 0x7BA92077) {
    assert Substituted(0xBE767E6B, 0x5B27C83B, 0xBE, 0x76, 0x7E, 0x6B, 0x5B, 0x27, 0xC8, 0x3B);
    assert Mixed(LPrime, 0xC42410CC, 0xF12186F9, 0x41662B61, 0x5A6AB19A, 0x545B6269, 0x7BA92077, 0xBE767E6B, 0x5B27C83B);
  }
  lemma Key4() ensures KnownStep(LPrime, 0xF12186F9, 0x41662B61, 0x5A6AB19A, 0x7BA92077, 0x70777E85, 0x367360F4) {
    assert Substituted(0x10D2C409, 0x2B31BBB6, 0x10, 0xD2, 0xC4, 0x09, 0x2B, 0x31, 0xBB, 0xB6);
    assert Mixed(LPrime, 0xF12186F9, 0x41662B61, 0x5A6AB19A, 0x7BA92077, 0x70777E85, 0x367360F4, 0x10D2C409, 0x2B31BBB6);
  }
  lemma Key5() ensures KnownStep(LPrime, 0x41662B61, 0x5A6AB19A, 0x7BA92077, 0x367360F4, 0x8C939AA1, 0x776A0C61) {
    assert Substituted(0x9B236BB8, 0x30F43B03, 0x9B, 0x23, 0x6B, 0xB8, 0x30, 0xF4, 0x3B, 0x03);
    assert Mixed(LPrime, 0x41662B61, 0x5A6AB19A, 0x7BA92077, 0x367360F4, 0x8C939AA1, 0x776A0C61, 0x9B236BB8, 0x30F43B03);
  }
  lemma Key6() ensures KnownStep(LPrime, 0x5A6AB19A, 0x7BA92077, 0x367360F4, 0x776A0C61, 0xA8AFB6BD, 0xB6BB89B3) {
    assert Substituted(0x921FFA5F, 0x5D995F35, 0x92, 0x1F, 0xFA, 0x5F, 0x5D, 0x99, 0x5F, 0x35);
    assert Mixed(LPrime, 0x5A6AB19A, 0x7BA92077, 0x367360F4, 0x776A0C61, 0xA8AFB6BD, 0xB6BB89B3, 0x921FFA5F, 0x5D995F35);
  }
  lemma Key7() ensures KnownStep(LPrime, 0x7BA92077, 0x367360F4, 0x776A0C61, 0xB6BB89B3, 0xC4CBD2D9, 0x24763151) {
    assert Substituted(0x336937FF, 0xA9229548, 0x33, 0x69, 0x37, 0xFF, 0xA9, 0x22, 0x95, 0x48);
    assert Mixed(LPrime, 0x7BA92077, 0x367360F4, 0x776A0C61, 0xB6BB89B3, 0xC4CBD2D9, 0x24763151, 0x336937FF, 0xA9229548);
  }
  lemma Key8() ensures KnownStep(LPrime, 0x367360F4, 0x776A0C61, 0xB6BB89B3, 0x24763151, 0xE0E7EEF5, 0xA520307C) {
    assert Substituted(0x05405A76, 0xE1470F27, 0x05, 0x40, 0x5A, 0x76, 0xE1, 0x47, 0x0F, 0x27);
    assert Mixed(LPrime, 0x367360F4, 0x776A0C61, 0xB6BB89B3, 0x24763151, 0xE0E7EEF5, 0xA520307C, 0x05405A76, 0xE1470F27);
  }
  lemma Key9() ensures KnownStep(LPrime, 0x776A0C61, 0xB6BB89B3, 0x24763151, 0xA520307C, 0xFC030A11, 0xB7584DBD) {
    assert Substituted(0xCBEE828F, 0x41C68AA1, 0xCB, 0xEE, 0x82, 0x8F, 0x41, 0xC6, 0x8A, 0xA1);
    assert Mixed(LPrime, 0x776A0C61, 0xB6BB89B3, 0x24763151, 0xA520307C, 0xFC030A11, 0xB7584DBD, 0xCBEE828F, 0x41C68AA1);
  }
  lemma Key10() ensures KnownStep(LPrime, 0xB6BB89B3, 0x24763151, 0xA520307C, 0xB7584DBD, 0x181F262D, 0xC30753ED) {
    assert Substituted(0x2E116ABD, 0xAC677C6C, 0x2E, 0x11, 0x6A, 0xBD, 0xAC, 0x67, 0x7C, 0x6C);
    assert Mixed(LPrime, 0xB6BB89B3, 0x24763151, 0xA520307C, 0xB7584DBD, 0x181F262D, 0xC30753ED, 0x2E116ABD, 0xAC677C6C);
  }
  lemma Key11() ensures KnownStep(LPrime, 0x24763151, 0xA520307C, 0xB7584DBD, 0xC30753ED, 0x343B4249, 0x7EE55B57) {
    assert Substituted(0xE5446C65, 0x96F30158, 0xE5, 0x44, 0x6C, 0x65, 0x96, 0xF3, 0x01, 0x58);
    assert Mixed(LPrime, 0x24763151, 0xA520307C, 0xB7584DBD, 0xC30753ED, 0x343B4249, 0x7EE55B57, 0xE5446C65, 0x96F30158);
  }
  lemma Key12() ensures KnownStep(LPrime, 0xA520307C, 0xB7584DBD, 0xC30753ED, 0x7EE55B57, 0x50575E65, 0x6988608C) {
    assert Substituted(0x5AED1B62, 0x0F6E260E, 0x5A, 0xED, 0x1B, 0x62, 0x0F, 0x6E, 0x26, 0x0E);
    assert Mixed(LPrime, 0xA520307C, 0xB7584DBD, 0xC30753ED, 0x7EE55B57, 0x50575E65, 0x6988608C, 0x5AED1B62, 0x0F6E260E);
  }
  lemma Key13() ensures KnownStep(LPrime, 0xB7584DBD, 0xC30753ED, 0x7EE55B57, 0x6988608C, 0x6C737A81, 0x30D895B7) {
    assert Substituted(0xB81912B7, 0x03449A2F, 0xB8, 0x19, 0x12, 0xB7, 0x03, 0x44, 0x9A, 0x2F);
    assert Mixed(LPrime, 0xB7584DBD, 0xC30753ED, 0x7EE55B57, 0x6988608C, 0x6C737A81, 0x30D895B7, 0xB81912B7, 0x03449A2F);
  }
  lemma Key14() ensures KnownStep(LPrime, 0xC30753ED, 0x7EE55B57, 0x6988608C, 0x30D895B7, 0x888F969D, 0x44BA14AF) {
    assert Substituted(0xAF3A38F1, 0x6F9480F0, 0xAF, 0x3A, 0x38, 0xF1, 0x6F, 0x94, 0x80, 0xF0);
    assert Mixed(LPrime, 0xC30753ED, 0x7EE55B57, 0x6988608C, 0x30D895B7, 0x888F969D, 0x44BA14AF, 0xAF3A38F1, 0x6F9480F0);
  }
  lemma Key15() ensures KnownStep(LPrime, 0x7EE55B57, 0x6988608C, 0x30D895B7, 0x44BA14AF, 0xA4ABB2B9, 0x104495A1) {
    assert Substituted(0xB941532D, 0xFF07B2CF, 0xB9, 0x41, 0x53, 0x2D, 0xFF, 0x07, 0xB2, 0xCF);
    assert Mixed(LPrime, 0x7EE55B57, 0x6988608C, 0x30D895B7, 0x44BA14AF, 0xA4ABB2B9, 0x104495A1, 0xB941532D, 0xFF07B2CF);
  }
  lemma Key16() ensures KnownStep(LPrime, 0x6988608C, 0x30D895B7, 0x44BA14AF, 0x104495A1, 0xC0C7CED5, 0xD120B428) {
    assert Substituted(0xA4E1DA6C, 0x8269D001, 0xA4, 0xE1, 0xDA, 0x6C, 0x82, 0x69, 0xD0, 0x01);
    assert Mixed(LPrime, 0x6988608C, 0x30D895B7, 0x44BA14AF, 0x104495A1, 0xC0C7CED5, 0xD120B428, 0xA4E1DA6C, 0x8269D001);
  }
  lemma Key17() ensures KnownStep(LPrime, 0x30D895B7, 0x44BA14AF, 0x104495A1, 0xD120B428, 0xDCE3EAF1, 0x73B55FA3) {
    assert Substituted(0x593DDFD7, 0xEB8FB0BD, 0x59, 0x3D, 0xDF, 0xD7, 0xEB, 0x8F, 0xB0, 0xBD);
    assert Mixed(LPrime, 0x30D895B7, 0x44BA14AF, 0x104495A1, 0xD120B428, 0xDCE3EAF1, 0x73B55FA3, 0x593DDFD7, 0xEB8FB0BD);
  }
  lemma Key18() ensures KnownStep(LPrime, 0x44BA14AF, 0x104495A1, 0xD120B428, 0x73B55FA3, 0xF8FF060D, 0xCC874966) {
    assert Substituted(0x4A2E7827, 0x3CAC4C7A, 0x4A, 0x2E, 0x78, 0x27, 0x3C, 0xAC, 0x4C, 0x7A);
    assert Mixed(LPrime, 0x44BA14AF, 0x104495A1, 0xD120B428, 0x73B55FA3, 0xF8FF060D, 0xCC874966, 0x4A2E7827, 0x3CAC4C7A);
  }
  lemma Key19() ensures KnownStep(LPrime, 0x104495A1, 0xD120B428, 0x73B55FA3, 0xCC874966, 0x141B2229, 0x92244439) {
    assert Substituted(0x7A0980C4, 0x02B6EABB, 0x7A, 0x09, 0x80, 0xC4, 0x02, 0xB6, 0xEA, 0xBB);
    assert Mixed(LPrime, 0x104495A1, 0xD120B428, 0x73B55FA3, 0xCC874966, 0x141B2229, 0x92244439, 0x7A0980C4, 0x02B6EABB);
  }
  lemma Key20() ensures KnownStep(LPrime, 0xD120B428, 0x73B55FA3, 0xCC874966, 0x92244439, 0x30373E45, 0xE89E641F) {
    assert Substituted(0x1D216CB9, 0x864201FF, 0x1D, 0x21, 0x6C, 0xB9, 0x86, 0x42, 0x01, 0xFF);
    assert Mixed(LPrime, 0xD120B428, 0x73B55FA3, 0xCC874966, 0x92244439, 0x30373E45, 0xE89E641F, 0x1D216CB9, 0x864201FF);
  }
  lemma Key21() ensures KnownStep(LPrime, 0x73B55FA3, 0xCC874966, 0x92244439, 0xE89E641F, 0x4C535A61, 0x98CA015A) {
    assert Substituted(0xFA6E3321, 0x5F78A942, 0xFA, 0x6E, 0x33, 0x21, 0x5F, 0x78, 0xA9, 0x42);
    assert Mixed(LPrime, 0x73B55FA3, 0xCC874966, 0x92244439, 0xE89E641F, 0x4C535A61, 0x98CA015A, 0xFA6E3321, 0x5F78A942);
  }
  lemma Key22() ensures KnownStep(LPrime, 0xCC874966, 0x92244439, 0xE89E641F, 0x98CA015A, 0x686F767D, 0xC7159060) {
    assert Substituted(0x8A1F5701, 0xF2998B90, 0x8A, 0x1F, 0x57, 0x01, 0xF2, 0x99, 0x8B, 0x90);
    assert Mixed(LPrime, 0xCC874966, 0x92244439, 0xE89E641F, 0x98CA015A, 0x686F767D, 0xC7159060, 0x8A1F5701, 0xF2998B90);
  }
  lemma Key23() ensures KnownStep(LPrime, 0x92244439, 0xE89E641F, 0x98CA015A, 0xC7159060, 0x848B9299, 0x99E1FD2E) {
    assert Substituted(0x33CA67BC, 0xA95CA26D, 0x33, 0xCA, 0x67, 0xBC, 0xA9, 0x5C, 0xA2, 0x6D);
    assert Mixed(LPrime, 0x92244439, 0xE89E641F, 0x98CA015A, 0xC7159060, 0x848B9299, 0x99E1FD2E, 0x33CA67BC, 0xA95CA26D);
  }
  lemma Key24() ensures KnownStep(LPrime, 0xE89E641F, 0x98CA015A, 0xC7159060, 0x99E1FD2E, 0xA0A7AEB5, 0xB79BD80C) {
    assert Substituted(0x6699C2A1, 0xD193AFF6, 0x66, 0x99, 0xC2, 0xA1, 0xD1, 0x93, 0xAF, 0xF6);
    assert Mixed(LPrime, 0xE89E641F, 0x98CA015A, 0xC7159060, 0x99E1FD2E, 0xA0A7AEB5, 0xB79BD80C, 0x6699C2A1, 0xD193AFF6);
  }
  lemma Key25() ensures KnownStep(LPrime, 0x98CA015A, 0xC7159060, 0x99E1FD2E, 0xB79BD80C, 0xBCC3CAD1, 0x1D2115B0) {
    assert Substituted(0x55AC7F93, 0x640D9EA4, 0x55, 0xAC, 0x7F, 0x93, 0x64, 0x0D, 0x9E, 0xA4);
    assert Mixed(LPrime, 0x98CA015A, 0xC7159060, 0x99E1FD2E, 0xB79BD80C, 0xBCC3CAD1, 0x1D2115B0, 0x55AC7F93, 0x640D9EA4);
  }
  lemma Key26() ensures KnownStep(LPrime, 0xC7159060, 0x99E1FD2E, 0xB79BD80C, 0x1D2115B0, 0xD8DFE6ED, 0x0E228AEB) {
    assert Substituted(0xEB84D67F, 0x09407B9E, 0xEB, 0x84, 0xD6, 0x7F, 0x09, 0x40, 0x7B, 0x9E);
    assert Mixed(LPrime, 0xC7159060, 0x99E1FD2E, 0xB79BD80C, 0x1D2115B0, 0xD8DFE6ED, 0x0E228AEB, 0xEB84D67F, 0x09407B9E);
  }
  lemma Key27() ensures KnownStep(LPrime, 0x99E1FD2E, 0xB79BD80C, 0x1D2115B0, 0x0E228AEB, 0xF4FB0209, 0xF1780C81) {
    assert Substituted(0x5063455E, 0x685E739D, 0x50, 0x63, 0x45, 0x5E, 0x68, 0x5E, 0x73, 0x9D);
    assert Mixed(LPrime, 0x99E1FD2E, 0xB79BD80C, 0x1D2115B0, 0x0E228AEB, 0xF4FB0209, 0xF1780C81, 0x5063455E, 0x685E739D);
  }
  lemma Key28() ensures KnownStep(LPrime, 0xB79BD80C, 0x1D2115B0, 0x0E228AEB, 0xF1780C81, 0x10171E25, 0x428D3654) {
    assert Substituted(0xF26C8DFF, 0x7D016148, 0xF2, 0x6C, 0x8D, 0xFF, 0x7D, 0x01, 0x61, 0x48);
    assert Mixed(LPrime, 0xB79BD80C, 0x1D2115B0, 0x0E228AEB, 0xF1780C81, 0x10171E25, 0x428D3654, 0xF26C8DFF, 0x7D016148);
  }
  lemma Key29() ensures KnownStep(LPrime, 0x1D2115B0, 0x0E228AEB, 0xF1780C81, 0x428D3654, 0x2C333A41, 0x62293496) {
    assert Substituted(0x91E48A7F, 0xAE0CF29E, 0x91, 0xE4, 0x8A, 0x7F, 0xAE, 0x0C, 0xF2, 0x9E);
    assert Mixed(LPrime, 0x1D2115B0, 0x0E228AEB, 0xF1780C81, 0x428D3654, 0x2C333A41, 0x62293496, 0x91E48A7F, 0xAE0CF29E);
  }
  lemma Key30() ensures KnownStep(LPrime, 0x0E228AEB, 0xF1780C81, 0x428D3654, 0x62293496, 0x484F565D, 0x01CF72E5) {
    assert Substituted(0x9993581E, 0x93A4F806, 0x99, 0x93, 0x58, 0x1E, 0x93, 0xA4, 0xF8, 0x06);
    assert Mixed(LPrime, 0x0E228AEB, 0xF1780C81, 0x428D3654, 0x62293496, 0x484F565D, 0x01CF72E5, 0x9993581E, 0x93A4F806);
  }
  lemma Key31() ensures KnownStep(LPrime, 0xF1780C81, 0x428D3654, 0x62293496, 0x01CF72E5, 0x646B7279, 0x9124A012) {
    assert Substituted(0x4500025E, 0x73D6E99D, 0x45, 0x00, 0x02, 0x5E, 0x73, 0xD6, 0xE9, 0x9D);
    assert Mixed(LPrime, 0xF1780C81, 0x428D3654, 0x62293496, 0x01CF72E5, 0x646B7279, 0x9124A012, 0x4500025E, 0x73D6E99D);
  }

  lemma Keys0()
    ensures FourKnown(LPrime, RK_0, CK_0, RK_1)
  {
    Key0(); Key1(); Key2(); Key3();
  }

  lemma Keys1()
    ensures FourKnown(LPrime, RK_1, CK_1, RK_2)
  {
    Key4(); Key5(); Key6(); Key7();
  }

  lemma Keys2()
    ensures FourKnown(LPrime, RK_2, CK_2, RK_3)
  {
    Key8(); Key9(); Key10(); Key11();
  }

  lemma Keys3()
    ensures FourKnown(LPrime, RK_3, CK_3, RK_4)
  {
    Key12(); Key13(); Key14(); Key15();
  }

  lemma Keys4()
    ensures FourKnown(LPrime, RK_4, CK_4, RK_5)
  {
    Key16(); Key17(); Key18(); Key19();
  }

  lemma Keys5()
    ensures FourKnown(LPrime, RK_5, CK_5, RK_6)
  {
    Key20(); Key21(); Key22(); Key23();
  }

  lemma Keys6()
    ensures FourKnown(LPrime, RK_6, CK_6, RK_7)
  {
    Key24(); Key25(); Key26(); Key27();
  }

  lemma Keys7()
    ensures FourKnown(LPrime, RK_7, CK_7, RK_8)
  {
    Key28(); Key29(); Key30(); Key31();
  }

  /** All the rounds. */
  lemma KeyTrace(xs: seq<seq<bv32>>, ks: seq<seq<bv32>>)
    requires xs == [RK_0, RK_1, RK_2, RK_3, RK_4, RK_5, RK_6, RK_7, RK_8]
    requires ks == [CK_0, CK_1, CK_2, CK_3, CK_4, CK_5, CK_6, CK_7]
    ensures |CK| == 32 && Trace(Around(After(LPrime)), RK_0, CK, 32) == Sum(xs, 9)
  {
    KeysAll(xs, ks);
    AfterFits(LPrime);
    KnownRows(LPrime, Around(After(LPrime)), xs, ks);
    SumOfEight(ks);
  }

  lemma KeysAll(xs: seq<seq<bv32>>, ks: seq<seq<bv32>>)
    requires xs == [RK_0, RK_1, RK_2, RK_3, RK_4, RK_5, RK_6, RK_7, RK_8]
    requires ks == [CK_0, CK_1, CK_2, CK_3, CK_4, CK_5, CK_6, CK_7]
    ensures |xs| == 9 && |ks| == 8 && forall j :: 0 <= j < 8 ==> FourKnown(LPrime, xs[j], ks[j], xs[j + 1])
  {
    forall j | 0 <= j < 8
      ensures FourKnown(LPrime, xs[j], ks[j], xs[j + 1])
    {
      match j
      case 0 => Keys0();
      case 1 => Keys1();
      case 2 => Keys2();
      case 3 => Keys3();
      case 4 => Keys4();
      case 5 => Keys5();
      case 6 => Keys6();
      case 7 => Keys7();
    }
  }

  /** The round keys that the standard gives for the key. */
  lemma PublishedKeys()
    ensures |CK| == 32 && Trace(Around(TPrime), MasterWords(KEY), CK, 32)[4..] == RK
  {
    WordSum(KEY, 0);
    WordSum(KEY, 4);
    WordSum(KEY, 8);
    WordSum(KEY, 12);
    assert MasterWords(KEY) == RK_0;
    var xs := [RK_0, RK_1, RK_2, RK_3, RK_4, RK_5, RK_6, RK_7, RK_8];
    KeyTrace(xs, [CK_0, CK_1, CK_2, CK_3, CK_4, CK_5, CK_6, CK_7]);
    SameKeys();
    SumOfEight(xs);
    SumAfterFirst(xs);
  }

  lemma SumAfterFirst<X>(r: seq<seq<X>>)
    requires |r| == 9
    ensures Sum(r, 9) == r[0] + (r[1] + r[2] + r[3] + r[4] + r[5] + r[6] + r[7] + r[8])
  {
    SumOfEight(r);
  }

  lemma SameKeys()
    requires |CK| == 32 && |RK_0| == 4
    ensures Trace(Around(TPrime), RK_0, CK, 32) == Trace(Around(After(LPrime)), RK_0, CK, 32)
  {
    SameRounds(TPrime, After(LPrime));
    TraceSame(Around(TPrime), Around(After(LPrime)), RK_0, CK, 32);
  }

  // ---------- The encryption ----------

  lemma Round0() ensures KnownStep(L, 0x01234567, 0x89ABCDEF, 0xFEDCBA98, 0x76543210, 0xF12186F9, 0x27FAD345) {
    assert Substituted(0xF002C39E, 0x18E992B1, 0xF0, 0x02, 0xC3, 0x9E, 0x18, 0xE9, 0x92, 0xB1);
    assert Mixed(L, 0x01234567, 0x89ABCDEF, 0xFEDCBA98, 0x76543210, 0xF12186F9, 0x27FAD345, 0xF002C39E, 0x18E992B1);
  }
  lemma Round1() ensures KnownStep(L, 0x89ABCDEF, 0xFEDCBA98, 0x76543210, 0x27FAD345, 0x41662B61, 0xA18B4CB2) {
    assert Substituted(0xEE1470AC, 0xC62AD40D, 0xEE, 0x14, 0x70, 0xAC, 0xC6, 0x2A, 0xD4, 0x0D);
    assert Mixed(L, 0x89ABCDEF, 0xFEDCBA98, 0x76543210, 0x27FAD345, 0x41662B61, 0xA18B4CB2, 0xEE1470AC, 0xC62AD40D);
  }
  lemma Round2() ensures KnownStep(L, 0xFEDCBA98, 0x76543210, 0x27FAD345, 0xA18B4CB2, 0x5A6AB19A, 0x11C1E22A) {
    assert Substituted(0xAA4F1C7D, 0x23A849C4, 0xAA, 0x4F, 0x1C, 0x7D, 0x23, 0xA8, 0x49, 0xC4);
    assert Mixed(L, 0xFEDCBA98, 0x76543210, 0x27FAD345, 0xA18B4CB2, 0x5A6AB19A, 0x11C1E22A, 0xAA4F1C7D, 0x23A849C4);
  }
  lemma Round3() ensures KnownStep(L, 0x76543210, 0x27FAD345, 0xA18B4CB2, 0x11C1E22A, 0x7BA92077, 0xCC13E2EE) {
    assert Substituted(0xEC195DAA, 0xC5445623, 0xEC, 0x19, 0x5D, 0xAA, 0xC5, 0x44, 0x56, 0x23);
    assert Mixed(L, 0x76543210, 0x27FAD345, 0xA18B4CB2, 0x11C1E22A, 0x7BA92077, 0xCC13E2EE, 0xEC195DAA, 0xC5445623);
  }
  lemma Round4() ensures KnownStep(L, 0x27FAD345, 0xA18B4CB2, 0x11C1E22A, 0xCC13E2EE, 0x367360F4, 0xF87C5BD5) {
    assert Substituted(0x4A2A2C82, 0x3C0BED8A, 0x4A, 0x2A, 0x2C, 0x82, 0x3C, 0x0B, 0xED, 0x8A);
    assert Mixed(L, 0x27FAD345, 0xA18B4CB2, 0x11C1E22A, 0xCC13E2EE, 0x367360F4, 0xF87C5BD5, 0x4A2A2C82, 0x3C0BED8A);
  }
  lemma Round5() ensures KnownStep(L, 0xA18B4CB2, 0x11C1E22A, 0xCC13E2EE, 0xF87C5BD5, 0x776A0C61, 0x33220757) {
    assert Substituted(0x52C45770, 0x81BB8BD4, 0x52, 0xC4, 0x57, 0x70, 0x81, 0xBB, 0x8B, 0xD4);
    assert Mixed(L, 0xA18B4CB2, 0x11C1E22A, 0xCC13E2EE, 0xF87C5BD5, 0x776A0C61, 0x33220757, 0x52C45770, 0x81BB8BD4);
  }
  lemma Round6() ensures KnownStep(L, 0x11C1E22A, 0xCC13E2EE, 0xF87C5BD5, 0x33220757, 0xB6BB89B3, 0x77F4C297) {
    assert Substituted(0xB1F637DF, 0xDB4D95B0, 0xB1, 0xF6, 0x37, 0xDF, 0xDB, 0x4D, 0x95, 0xB0);
    assert Mixed(L, 0x11C1E22A, 0xCC13E2EE, 0xF87C5BD5, 0x33220757, 0xB6BB89B3, 0x77F4C297, 0xB1F637DF, 0xDB4D95B0);
  }
  lemma Round7() ensures KnownStep(L, 0xCC13E2EE, 0xF87C5BD5, 0x33220757, 0x77F4C297, 0x24763151, 0x7A96F2EB) {
    assert Substituted(0x98DCAF44, 0xADB86FF3, 0x98, 0xDC, 0xAF, 0x44, 0xAD, 0xB8, 0x6F, 0xF3);
    assert Mixed(L, 0xCC13E2EE, 0xF87C5BD5, 0x33220757, 0x77F4C297, 0x24763151, 0x7A96F2EB, 0x98DCAF44, 0xADB86FF3);
  }
  lemma Round8() ensures KnownStep(L, 0xF87C5BD5, 0x33220757, 0x77F4C297, 0x7A96F2EB, 0xA520307C, 0x27DAC07F) {
    assert Substituted(0x9B600757, 0x301EB78B, 0x9B, 0x60, 0x07, 0x57, 0x30, 0x1E, 0xB7, 0x8B);
    assert Mixed(L, 0xF87C5BD5, 0x33220757, 0x77F4C297, 0x7A96F2EB, 0xA520307C, 0x27DAC07F, 0x9B600757, 0x301EB78B);
  }
  lemma Round9() ensures KnownStep(L, 0x33220757, 0x77F4C297, 0x7A96F2EB, 0x27DAC07F, 0xB7584DBD, 0x42DD0F19) {
    assert Substituted(0x9DE0BDBE, 0x8C896C5B, 0x9D, 0xE0, 0xBD, 0xBE, 0x8C, 0x89, 0x6C, 0x5B);
    assert Mixed(L, 0x33220757, 0x77F4C297, 0x7A96F2EB, 0x27DAC07F, 0xB7584DBD, 0x42DD0F19, 0x9DE0BDBE, 0x8C896C5B);
  }
  lemma Round10() ensures KnownStep(L, 0x77F4C297, 0x7A96F2EB, 0x27DAC07F, 0x42DD0F19, 0xC30753ED, 0xB8A5DA02) {
    assert Substituted(0xDC966E60, 0xB81A781E, 0xDC, 0x96, 0x6E, 0x60, 0xB8, 0x1A, 0x78, 0x1E);
    assert Mixed(L, 0x77F4C297, 0x7A96F2EB, 0x27DAC07F, 0x42DD0F19, 0xC30753ED, 0xB8A5DA02, 0xDC966E60, 0xB81A781E);
  }
  lemma Round11() ensures KnownStep(L, 0x7A96F2EB, 0x27DAC07F, 0x42DD0F19, 0xB8A5DA02, 0x7EE55B57, 0x907127FA) {
    assert Substituted(0xA3474E33, 0x2EBA4FA9, 0xA3, 0x47, 0x4E, 0x33, 0x2E, 0xBA, 0x4F, 0xA9);
    assert Mixed(L, 0x7A96F2EB, 0x27DAC07F, 0x42DD0F19, 0xB8A5DA02, 0x7EE55B57, 0x907127FA, 0xA3474E33, 0x2EBA4FA9);
  }
  lemma Round12() ensures KnownStep(L, 0x27DAC07F, 0x42DD0F19, 0xB8A5DA02, 0x907127FA, 0x6988608C, 0x8B952B83) {
    assert Substituted(0x0381926D, 0xFEBF5D21, 0x03, 0x81, 0x92, 0x6D, 0xFE, 0xBF, 0x5D, 0x21);
    assert Mixed(L, 0x27DAC07F, 0x42DD0F19, 0xB8A5DA02, 0x907127FA, 0x6988608C, 0x8B952B83, 0x0381926D, 0xFEBF5D21);
  }
  lemma Round13() ensures KnownStep(L, 0x42DD0F19, 0xB8A5DA02, 0x907127FA, 0x8B952B83, 0x30D895B7, 0xD42B7C59) {
    assert Substituted(0x939943CC, 0xA493FC1F, 0x93, 0x99, 0x43, 0xCC, 0xA4, 0x93, 0xFC, 0x1F);
    assert Mixed(L, 0x42DD0F19, 0xB8A5DA02, 0x907127FA, 0x8B952B83, 0x30D895B7, 0xD42B7C59, 0x939943CC, 0xA493FC1F);
  }
  lemma Round14() ensures KnownStep(L, 0xB8A5DA02, 0x907127FA, 0x8B952B83, 0xD42B7C59, 0x44BA14AF, 0x2FFC5831) {
    assert Substituted(0x8B75648F, 0xCED363A1, 0x8B, 0x75, 0x64, 0x8F, 0xCE, 0xD3, 0x63, 0xA1);
    assert Mixed(L, 0xB8A5DA02, 0x907127FA, 0x8B952B83, 0xD42B7C59, 0x44BA14AF, 0x2FFC5831, 0x8B75648F, 0xCED363A1);
  }
  lemma Round15() ensures KnownStep(L, 0x907127FA, 0x8B952B83, 0xD42B7C59, 0x2FFC5831, 0x104495A1, 0xF69E6888) {
    assert Substituted(0x60069A4A, 0x1E3D323C, 0x60, 0x06, 0x9A, 0x4A, 0x1E, 0x3D, 0x32, 0x3C);
    assert Mixed(L, 0x907127FA, 0x8B952B83, 0xD42B7C59, 0x2FFC5831, 0x104495A1, 0xF69E6888, 0x60069A4A, 0x1E3D323C);
  }
  lemma Round16() ensures KnownStep(L, 0x8B952B83, 0xD42B7C59, 0x2FFC5831, 0xF69E6888, 0xD120B428, 0xAF2432C4) {
    assert Substituted(0xDC69F8C8, 0xB8227911, 0xDC, 0x69, 0xF8, 0xC8, 0xB8, 0x22, 0x79, 0x11);
    assert Mixed(L, 0x8B952B83, 0xD42B7C59, 0x2FFC5831, 0xF69E6888, 0xD120B428, 0xAF2432C4, 0xDC69F8C8, 0xB8227911);
  }
  lemma Round17() ensures KnownStep(L, 0xD42B7C59, 0x2FFC5831, 0xF69E6888, 0xAF2432C4, 0x73B55FA3, 0xED1EC85E) {
    assert Substituted(0x05F35DDE, 0xE1EC56B4, 0x05, 0xF3, 0x5D, 0xDE, 0xE1, 0xEC, 0x56, 0xB4);
    assert Mixed(L, 0xD42B7C59, 0x2FFC5831, 0xF69E6888, 0xAF2432C4, 0x73B55FA3, 0xED1EC85E, 0x05F35DDE, 0xE1EC56B4);
  }
  lemma Round18() ensures KnownStep(L, 0x2FFC5831, 0xF69E6888, 0xAF2432C4, 0xED1EC85E, 0xCC874966, 0x55A3BA22) {
    assert Substituted(0x7823DB74, 0x4CF4129F, 0x78, 0x23, 0xDB, 0x74, 0x4C, 0xF4, 0x12, 0x9F);
    assert Mixed(L, 0x2FFC5831, 0xF69E6888, 0xAF2432C4, 0xED1EC85E, 0xCC874966, 0x55A3BA22, 0x7823DB74, 0x4CF4129F);
  }
  lemma Round19() ensures KnownStep(L, 0xF69E6888, 0xAF2432C4, 0xED1EC85E, 0x55A3BA22, 0x92244439, 0x124B18AA) {
    assert Substituted(0x85BD0481, 0xC76CCCBF, 0x85, 0xBD, 0x04, 0x81, 0xC7, 0x6C, 0xCC, 0xBF);
    assert Mixed(L, 0xF69E6888, 0xAF2432C4, 0xED1EC85E, 0x55A3BA22, 0x92244439, 0x124B18AA, 0x85BD0481, 0xC76CCCBF);
  }
  lemma Round20() ensures KnownStep(L, 0xAF2432C4, 0xED1EC85E, 0x55A3BA22, 0x124B18AA, 0xE89E641F, 0x6AE7725F) {
    assert Substituted(0x42680EC9, 0xA7252CD9, 0x42, 0x68, 0x0E, 0xC9, 0xA7, 0x25, 0x2C, 0xD9);
    assert Mixed(L, 0xAF2432C4, 0xED1EC85E, 0x55A3BA22, 0x124B18AA, 0xE89E641F, 0x6AE7725F, 0x42680EC9, 0xA7252CD9);
  }
  lemma Round21() ensures KnownStep(L, 0xED1EC85E, 0x55A3BA22, 0x124B18AA, 0x6AE7725F, 0x98CA015A, 0xF4CBA1F9) {
    assert Substituted(0xB5C5D18D, 0xFDDDC161, 0xB5, 0xC5, 0xD1, 0x8D, 0xFD, 0xDD, 0xC1, 0x61);
    assert Mixed(L, 0xED1EC85E, 0x55A3BA22, 0x124B18AA, 0x6AE7725F, 0x98CA015A, 0xF4CBA1F9, 0xB5C5D18D, 0xFDDDC161);
  }
  lemma Round22() ensures KnownStep(L, 0x55A3BA22, 0x124B18AA, 0x6AE7725F, 0xF4CBA1F9, 0xC7159060, 0x1DCDFA10) {
    assert Substituted(0x4B725B6C, 0x19464B01, 0x4B, 0x72, 0x5B, 0x6C, 0x19, 0x46, 0x4B, 0x01);
    assert Mixed(L, 0x55A3BA22, 0x124B18AA, 0x6AE7725F, 0xF4CBA1F9, 0xC7159060, 0x1DCDFA10, 0x4B725B6C, 0x19464B01);
  }
  lemma Round23() ensures KnownStep(L, 0x124B18AA, 0x6AE7725F, 0xF4CBA1F9, 0x1DCDFA10, 0x99E1FD2E, 0x2FF60603) {
    assert Substituted(0x1A00D498, 0x13D6A5AD, 0x1A, 0x00, 0xD4, 0x98, 0x13, 0xD6, 0xA5, 0xAD);
    assert Mixed(L, 0x124B18AA, 0x6AE7725F, 0xF4CBA1F9, 0x1DCDFA10, 0x99E1FD2E, 0x2FF60603, 0x1A00D498, 0x13D6A5AD);
  }
  lemma Round24() ensures KnownStep(L, 0x6AE7725F, 0xF4CBA1F9, 0x1DCDFA10, 0x2FF60603, 0xB79BD80C, 0xEFF24FDC) {
    assert Substituted(0x716B85E6, 0x003BC777, 0x71, 0x6B, 0x85, 0xE6, 0x00, 0x3B, 0xC7, 0x77);
    assert Mixed(L, 0x6AE7725F, 0xF4CBA1F9, 0x1DCDFA10, 0x2FF60603, 0xB79BD80C, 0xEFF24FDC, 0x716B85E6, 0x003BC777);
  }
  lemma Round25() ensures KnownStep(L, 0xF4CBA1F9, 0x1DCDFA10, 0x2FF60603, 0xEFF24FDC, 0x1D2115B0, 0x6FE46B75) {
    assert Substituted(0xC0E8A67F, 0x8D65CA9E, 0xC0, 0xE8, 0xA6, 0x7F, 0x8D, 0x65, 0xCA, 0x9E);
    assert Mixed(L, 0xF4CBA1F9, 0x1DCDFA10, 0x2FF60603, 0xEFF24FDC, 0x1D2115B0, 0x6FE46B75, 0xC0E8A67F, 0x8D65CA9E);
  }
  lemma Round26() ensures KnownStep(L, 0x1DCDFA10, 0x2FF60603, 0xEFF24FDC, 0x6FE46B75, 0x0E228AEB, 0x893450AD) {
    assert Substituted(0xA1C2A841, 0xF6AFC007, 0xA1, 0xC2, 0xA8, 0x41, 0xF6, 0xAF, 0xC0, 0x07);
    assert Mixed(L, 0x1DCDFA10, 0x2FF60603, 0xEFF24FDC, 0x6FE46B75, 0x0E228AEB, 0x893450AD, 0xA1C2A841, 0xF6AFC007);
  }
  lemma Round27() ensures KnownStep(L, 0x2FF60603, 0xEFF24FDC, 0x6FE46B75, 0x893450AD, 0xF1780C81, 0x7B938F4C) {
    assert Substituted(0xF85A7885, 0x790F4CC7, 0xF8, 0x5A, 0x78, 0x85, 0x79, 0x0F, 0x4C, 0xC7);
    assert Mixed(L, 0x2FF60603, 0xEFF24FDC, 0x6FE46B75, 0x893450AD, 0xF1780C81, 0x7B938F4C, 0xF85A7885, 0x790F4CC7);
  }
  lemma Round28() ensures KnownStep(L, 0xEFF24FDC, 0x6FE46B75, 0x893450AD, 0x7B938F4C, 0x428D3654, 0x536E4246) {
    assert Substituted(0xDFCE82C0, 0xB05A8A8D, 0xDF, 0xCE, 0x82, 0xC0, 0xB0, 0x5A, 0x8A, 0x8D);
    assert Mixed(L, 0xEFF24FDC, 0x6FE46B75, 0x893450AD, 0x7B938F4C, 0x428D3654, 0x536E4246, 0xDFCE82C0, 0xB05A8A8D);
  }
  lemma Round29() ensures KnownStep(L, 0x6FE46B75, 0x893450AD, 0x7B938F4C, 0x536E4246, 0x62293496, 0x86B3E94F) {
    assert Substituted(0xC3E0A931, 0x928929B3, 0xC3, 0xE0, 0xA9, 0x31, 0x92, 0x89, 0x29, 0xB3);
    assert Mixed(L, 0x6FE46B75, 0x893450AD, 0x7B938F4C, 0x536E4246, 0x62293496, 0x86B3E94F, 0xC3E0A931, 0x928929B3);
  }
  lemma Round30() ensures KnownStep(L, 0x893450AD, 0x7B938F4C, 0x536E4246, 0x86B3E94F, 0x01CF72E5, 0xD206965E) {
    assert Substituted(0xAF8156A0, 0x6FBFDA1D, 0xAF, 0x81, 0x56, 0xA0, 0x6F, 0xBF, 0xDA, 0x1D);
    assert Mixed(L, 0x893450AD, 0x7B938F4C, 0x536E4246, 0x86B3E94F, 0x01CF72E5, 0xD206965E, 0xAF8156A0, 0x6FBFDA1D);
  }
  lemma Round31() ensures KnownStep(L, 0x7B938F4C, 0x536E4246, 0x86B3E94F, 0xD206965E, 0x9124A012, 0x681EDF34) {
    assert Substituted(0x96FF9D45, 0x1A488C73, 0x96, 0xFF, 0x9D, 0x45, 0x1A, 0x48, 0x8C, 0x73);
    assert Mixed(L, 0x7B938F4C, 0x536E4246, 0x86B3E94F, 0xD206965E, 0x9124A012, 0x681EDF34, 0x96FF9D45, 0x1A488C73);
  }

  lemma Rounds0()
    ensures FourKnown(L, X_0, RK_1, X_1)
  {
    Round0(); Round1(); Round2(); Round3();
  }

  lemma Rounds1()
    ensures FourKnown(L, X_1, RK_2, X_2)
  {
    Round4(); Round5(); Round6(); Round7();
  }

  lemma Rounds2()
    ensures FourKnown(L, X_2, RK_3, X_3)
  {
    Round8(); Round9(); Round10(); Round11();
  }

  lemma Rounds3()
    ensures FourKnown(L, X_3, RK_4, X_4)
  {
    Round12(); Round13(); Round14(); Round15();
  }

  lemma Rounds4()
    ensures FourKnown(L, X_4, RK_5, X_5)
  {
    Round16(); Round17(); Round18(); Round19();
  }

  lemma Rounds5()
    ensures FourKnown(L, X_5, RK_6, X_6)
  {
    Round20(); Round21(); Round22(); Round23();
  }

  lemma Rounds6()
    ensures FourKnown(L, X_6, RK_7, X_7)
  {
    Round24(); Round25(); Round26(); Round27();
  }

  lemma Rounds7()
    ensures FourKnown(L, X_7, RK_8, X_8)
  {
    Round28(); Round29(); Round30(); Round31();
  }

  /** All the rounds. */
  lemma RoundTrace(xs: seq<seq<bv32>>, ks: seq<seq<bv32>>)
    requires xs == [X_0, X_1, X_2, X_3, X_4, X_5, X_6, X_7, X_8]
    requires ks == [RK_1, RK_2, RK_3, RK_4, RK_5, RK_6, RK_7, RK_8]
    ensures |RK| == 32 && Trace(Around(After(L)), X_0, RK, 32) == Sum(xs, 9)
  {
    RoundsAll(xs, ks);
    AfterFits(L);
    KnownRows(L, Around(After(L)), xs, ks);
    SumOfEight(ks);
  }

  lemma RoundsAll(xs: seq<seq<bv32>>, ks: seq<seq<bv32>>)
    requires xs == [X_0, X_1, X_2, X_3, X_4, X_5, X_6, X_7, X_8]
    requires ks == [RK_1, RK_2, RK_3, RK_4, RK_5, RK_6, RK_7, RK_8]
    ensures |xs| == 9 && |ks| == 8 && forall j :: 0 <= j < 8 ==> FourKnown(L, xs[j], ks[j], xs[j + 1])
  {
    forall j | 0 <= j < 8
      ensures FourKnown(L, xs[j], ks[j], xs[j + 1])
    {
      match j
      case 0 => Rounds0();
      case 1 => Rounds1();
      case 2 => Rounds2();
      case 3 => Rounds3();
      case 4 => Rounds4();
      case 5 => Rounds5();
      case 6 => Rounds6();
      case 7 => Rounds7();
    }
  }

  /** The block that the standard gives. */
  lemma PublishedBlock()
    ensures CryptBlock(Around(T), KEY, RK) == CIPHER
  {
    var xs := [X_0, X_1, X_2, X_3, X_4, X_5, X_6, X_7, X_8];
    RoundTrace(xs, [RK_1, RK_2, RK_3, RK_4, RK_5, RK_6, RK_7, RK_8]);
    SumOfEight(xs);
    forall x ensures T(x) == After(L)(x) { TIsLTau(x); }
    SameRounds(T, After(L));
    TraceSame(Around(T), Around(After(L)), X_0, RK, 32);
    BlockWords();
    assert Crypt(Around(T), X_0, RK) == Reversed(X_8);
  }

  lemma SameRounds(f: bv32 -> bv32, g: bv32 -> bv32)
    requires forall x :: f(x) == g(x)
    ensures forall a, b, c, d, k :: Around(f)(a, b, c, d, k) == Around(g)(a, b, c, d, k)
  {
    forall a, b, c, d, k
      ensures Around(f)(a, b, c, d, k) == Around(g)(a, b, c, d, k)
    {
      SameAround(f, g, a, b, c, d, k);
    }
  }

  lemma SameAround(f: bv32 -> bv32, g: bv32 -> bv32, a: bv32, b: bv32, c: bv32, d: bv32, k: bv32)
    requires forall x :: f(x) == g(x)
    ensures Around(f)(a, b, c, d, k) == Around(g)(a, b, c, d, k)
  {}

  lemma BlockWords()
    ensures Words(KEY) == X_0 && Bytes(Reversed(X_8)) == CIPHER
  {
    WordSum(KEY, 0);
    WordSum(KEY, 4);
    WordSum(KEY, 8);
    WordSum(KEY, 12);
  }
}
