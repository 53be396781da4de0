/** The compression function of FIPS 180-4 and sha256_transform. */
module Sha256Core {
  import opened BigEndianWords
  import opened Sha256Functions

  type Block = b: seq<bv8> | |b| == 64 witness seq(64, i => 0 as bv8)
  type Digest = s: seq<bv32> | |s| == 8 witness seq(8, i => 0 as bv32)
  type Schedule<!W> = (W, W, W, W) -> W
  type RoundFn<!W> = (Vars<W>, W, W) -> Vars<W>

  /** The message schedule W[0..n]. */
  function Expand<W>(sched: Schedule<W>, m: seq<W>, n: nat): (w: seq<W>)
    requires |m| == 16 <= n
    ensures |w| == n
  {
    if n == 16 then m
    else
      var w := Expand(sched, m, n - 1);
      w + [sched(w[n - 3], w[n - 8], w[n - 16], w[n - 17])]
  }

  function Rounds<W>(round: RoundFn<W>, v: Vars<W>, k: seq<W>, w: seq<W>, n: nat): Vars<W>
    requires n <= |k| == |w|
  {
    if n == 0 then v else round(Rounds(round, v, k, w, n - 1), k[n - 1], w[n - 1])
  }

  lemma {:induction false} ExpandSame<W(!new)>(s: Schedule<W>, t: Schedule<W>, m: seq<W>, n: nat)
    requires |m| == 16 <= n && forall a, b, c, d :: s(a, b, c, d) == t(a, b, c, d)
    ensures Expand(s, m, n) == Expand(t, m, n)
  {
    if n > 16 {
      ExpandSame(s, t, m, n - 1);
    }
  }

  lemma {:induction false} RoundsSame<W(!new)>(r: RoundFn<W>, q: RoundFn<W>, v: Vars<W>, k: seq<W>, w: seq<W>, n: nat)
    requires n <= |k| == |w| && forall u, a, b :: r(u, a, b) == q(u, a, b)
    ensures Rounds(r, v, k, w, n) == Rounds(q, v, k, w, n)
  {
    if n > 0 {
      RoundsSame(r, q, v, k, w, n - 1);
    }
  }

  method ExpandLoop<W>(sched: Schedule<W>, w: array<W>)
    requires w.Length == 64
    modifies w
    ensures w[..] == Expand(sched, old(w[..16]), 64)
  {
    for i := 16 to 64
      invariant w[..i] == Expand(sched, old(w[..16]), i)
    {
      w[i] := sched(w[i - 2], w[i - 7], w[i - 15], w[i - 16]);
      assert w[..i + 1] == w[..i] + [w[i]];
    }
    assert w[..] == w[..64];
  }

  method RoundLoop<W>(round: RoundFn<W>, v: Vars<W>, k: seq<W>, w: array<W>) returns (u: Vars<W>)
    requires |k| == w.Length == 64
    ensures u == Rounds(round, v, k, w[..], 64)
  {
    u := v;
    for i := 0 to 64
      invariant u == Rounds(round, v, k, w[..], i)
    {
      u := round(u, k[i], w[i]);
    }
  }

  function BlockWords(b: Block): (m: seq<bv32>)
    ensures |m| == 16
  {
    seq(16, i requires 0 <= i < 16 => Word(b, 4 * i))
  }

  function VarsOf(s: Digest): Vars<bv32> {
    Vars(s[0], s[1], s[2], s[3], s[4], s[5], s[6], s[7])
  }

  function SumWith<W>(add: (W, W) -> W, s: seq<W>, v: Vars<W>): (t: seq<W>)
    requires |s| == 8
    ensures |t| == 8
  {
    [add(s[0], v.a), add(s[1], v.b), add(s[2], v.c), add(s[3], v.d),
     add(s[4], v.e), add(s[5], v.f), add(s[6], v.g), add(s[7], v.h)]
  }

  function Plus(a: bv32, b: bv32): bv32 { a + b }

  /** Section 6.2.2: the hash value after one more block. */
  function Compress(s: Digest, b: Block): Digest {
    SumWith(Plus, s, Rounds(Round, VarsOf(s), K, Expand(ScheduleWord, BlockWords(b), 64), 64))
  }

  method LoadBlock(b: Block) returns (w: array<bv32>)
    ensures fresh(w) && w.Length == 64 && w[..16] == BlockWords(b)
  {
    w := new bv32[64];
    for i := 0 to 16
      invariant w[..i] == BlockWords(b)[..i]
    {
      w[i] := Word(b, 4 * i);
      assert w[..i + 1] == w[..i] + [w[i]];
    }
  }

  /** sha256_transform, on the kernel's macros, is the standard's compression. */
  method Transform(state: array<bv32>, data: Block)
    requires state.Length == 8
    modifies state
    ensures state[..] == Compress(old(state[..]), data)
  {
    var w := LoadBlock(data);
    ghost var m := w[..16];
    ExpandLoop(ScheduleMacro, w);
    var v := RoundLoop(RoundMacro, VarsOf(state[..]), K, w);
    MacrosAgree();
    ExpandSame(ScheduleMacro, ScheduleWord, m, 64);
    RoundsSame(RoundMacro, Round, VarsOf(state[..]), K, w[..], 64);
    AddState(Plus, state, v);
  }

  method AddState<W>(add: (W, W) -> W, state: array<W>, v: Vars<W>)
    requires state.Length == 8
    modifies state
    ensures state[..] == SumWith(add, old(state[..]), v)
  {
    state[0] := add(state[0], v.a);
    state[1] := add(state[1], v.b);
    state[2] := add(state[2], v.c);
    state[3] := add(state[3], v.d);
    state[4] := add(state[4], v.e);
    state[5] := add(state[5], v.f);
    state[6] := add(state[6], v.g);
    state[7] := add(state[7], v.h);
  }
}
