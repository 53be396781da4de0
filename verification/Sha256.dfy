/** The kernel's file hash: 1024-byte reads, a leftover buffer and one- or
    two-block padding, against the one-shot definition of FIPS 180-4. */
module Sha256 {
  import opened Options
  import opened Sequences
  import opened BigEndianWords
  import opened Sha256Functions
  import opened Sha256Core

  // ---------- The standard ----------

  type Step<!S> = (S, Block) -> S

  /** The hash value after a sequence of blocks (section 6.2.2), for any
      compression. */
  function Fold<S>(g: Step<S>, s: S, blocks: seq<Block>): S {
    if blocks == [] then s else g(Fold(g, s, blocks[..|blocks| - 1]), blocks[|blocks| - 1])
  }

  function Zeros(n: nat): (z: seq<bv8>)
    ensures |z| == n
  {
    seq(n, i => 0 as bv8)
  }

  function LowByte(n: nat): bv8 { (n % 256) as bv8 }

  /** The last `k` base-256 digits of `n`, most significant first. */
  function BigEndian(n: nat, k: nat): (b: seq<bv8>)
    ensures |b| == k
  {
    if k == 0 then [] else BigEndian(n / 256, k - 1) + [LowByte(n)]
  }

  /** Section 5.1.1, in bytes. */
  function Padding(len: nat): (p: seq<bv8>)
    ensures |p| == 9 + (55 - len) % 64
  {
    [0x80] + Zeros((55 - len) % 64) + BigEndian(8 * len, 8)
  }

  /** Section 5.2.1: the padded message as blocks. */
  function Parse(data: seq<bv8>): (blocks: seq<Block>)
    ensures |blocks| == |data| / 64
  {
    seq(|data| / 64, i requires 0 <= i < |data| / 64 => data[64 * i..64 * i + 64])
  }

  function DigestBytes(s: Digest): (d: seq<bv8>)
    ensures |d| == 32
  {
    seq(32, i requires 0 <= i < 32 => ByteOf(s[i / 4], i % 4))
  }

  lemma DigestMore(s: Digest, i: nat)
    requires i < 8
    ensures DigestBytes(s)[..4 * i + 4] ==
            DigestBytes(s)[..4 * i] + [ByteOf(s[i], 0), ByteOf(s[i], 1), ByteOf(s[i], 2), ByteOf(s[i], 3)]
  {
    var d, next := DigestBytes(s), [ByteOf(s[i], 0), ByteOf(s[i], 1), ByteOf(s[i], 2), ByteOf(s[i], 3)];
    forall k | 0 <= k < 4
      ensures d[4 * i + k] == next[k]
    {
      Quarter(i, k);
      assert d[4 * i + k] == ByteOf(s[i], k);
    }
    assert d[..4 * i + 4] == d[..4 * i] + d[4 * i..4 * i + 4];
    assert d[4 * i..4 * i + 4] == next;
  }

  lemma Quarter(i: nat, k: nat)
    requires k < 4
    ensures (4 * i + k) / 4 == i && (4 * i + k) % 4 == k
  {}

  function Hash(msg: seq<bv8>): seq<bv8> {
    DigestBytes(Fold<Digest>(Compress, H0, Parse(msg + Padding(|msg|))))
  }

  // ---------- A message as whole blocks and leftover bytes ----------

  function Flatten(blocks: seq<Block>): (data: seq<bv8>)
    ensures |data| == 64 * |blocks|
  {
    if blocks == [] then [] else Flatten(blocks[..|blocks| - 1]) + blocks[|blocks| - 1]
  }

  lemma FlattenMore(blocks: seq<Block>, b: Block)
    ensures Flatten(blocks + [b]) == Flatten(blocks) + b
  {
    assert (blocks + [b])[..|blocks|] == blocks;
  }

  lemma FoldMore<S>(g: Step<S>, s: S, blocks: seq<Block>, b: Block)
    ensures Fold(g, s, blocks + [b]) == g(Fold(g, s, blocks), b)
  {
    assert (blocks + [b])[..|blocks|] == blocks;
  }

  lemma {:induction false} FlattenAt(blocks: seq<Block>, i: nat)
    requires i < |blocks|
    ensures Flatten(blocks)[64 * i..64 * i + 64] == blocks[i]
  {
    if i < |blocks| - 1 {
      var init := blocks[..|blocks| - 1];
      FlattenAt(init, i);
      assert Flatten(blocks)[64 * i..64 * i + 64] == Flatten(init)[64 * i..64 * i + 64];
    }
  }

  lemma ParseFlatten(blocks: seq<Block>)
    ensures Parse(Flatten(blocks)) == blocks
  {
    forall i | 0 <= i < |blocks|
      ensures Flatten(blocks)[64 * i..64 * i + 64] == blocks[i]
    {
      FlattenAt(blocks, i);
    }
  }

  /** One block when the leftover bytes leave room for the length. */
  function ShortTail(left: seq<bv8>, len: nat): Block
    requires |left| < 56
  {
    left + [0x80] + Zeros(55 - |left|) + BigEndian(8 * len, 8)
  }

  function LongTailFirst(left: seq<bv8>): Block
    requires 56 <= |left| < 64
  {
    left + [0x80] + Zeros(63 - |left|)
  }

  function LongTailSecond(len: nat): Block {
    Zeros(56) + BigEndian(8 * len, 8)
  }

  function TailBlocks(left: seq<bv8>, len: nat): seq<Block>
    requires |left| < 64
  {
    if |left| < 56 then [ShortTail(left, len)] else [LongTailFirst(left), LongTailSecond(len)]
  }

  lemma PaddingZeros(q: nat, left: nat)
    requires left < 64
    ensures (55 - (64 * q + left)) % 64 == if left < 56 then 55 - left else 119 - left
    ensures (64 * q + left) % 64 == left
  {
    var minus: int := 0 - q;
    if left < 56 {
      ModIs(55 - (64 * q + left), minus, 55 - left);
    } else {
      ModIs(55 - (64 * q + left), minus - 1, 119 - left);
    }
    ModIs(64 * q + left, q, left);
  }

  lemma ModIs(n: int, q: int, r: int)
    requires n == 64 * q + r && 0 <= r < 64
    ensures n % 64 == r
  {}

  lemma PaddingBytes(left: seq<bv8>, q: nat)
    requires |left| < 64
    ensures var len := 64 * q + |left|;
            |left| < 56 ==> left + Padding(len) == ShortTail(left, len)
    ensures var len := 64 * q + |left|;
            |left| >= 56 ==> left + Padding(len) == LongTailFirst(left) + LongTailSecond(len)
  {
    PaddingZeros(q, |left|);
  }

  lemma ParseOneMore(blocks: seq<Block>, left: seq<bv8>, p: seq<bv8>, b: Block)
    requires left + p == b
    ensures Parse(Flatten(blocks) + left + p) == blocks + [b]
  {
    assert Flatten(blocks) + left + p == Flatten(blocks) + (left + p);
    FlattenMore(blocks, b);
    ParseFlatten(blocks + [b]);
  }

  lemma ParseTwoMore(blocks: seq<Block>, left: seq<bv8>, p: seq<bv8>, b: Block, c: Block)
    requires left + p == b + c
    ensures Parse(Flatten(blocks) + left + p) == blocks + [b, c]
  {
    assert Flatten(blocks) + left + p == Flatten(blocks) + (b + c) == (Flatten(blocks) + b) + c;
    FlattenMore(blocks, b);
    FlattenMore(blocks + [b], c);
    assert blocks + [b] + [c] == blocks + [b, c];
    ParseFlatten(blocks + [b, c]);
  }

  /** The standard's blocks are the message's whole blocks and one or two made
      of the leftover bytes and the padding. */
  lemma PaddedBlocks(blocks: seq<Block>, left: seq<bv8>)
    requires |left| < 64
    ensures var msg := Flatten(blocks) + left;
            Parse(msg + Padding(|msg|)) == blocks + TailBlocks(left, |msg|)
  {
    var len := 64 * |blocks| + |left|;
    PaddingBytes(left, |blocks|);
    if |left| < 56 {
      ParseOneMore(blocks, left, Padding(len), ShortTail(left, len));
    } else {
      ParseTwoMore(blocks, left, Padding(len), LongTailFirst(left), LongTailSecond(len));
    }
  }

  /** What the padding does to the hash value of the whole blocks. */
  function FinishWith<S>(g: Step<S>, now: S, left: seq<bv8>, len: nat): S
    requires |left| < 64
  {
    if |left| < 56 then g(now, ShortTail(left, len))
    else g(g(now, LongTailFirst(left)), LongTailSecond(len))
  }

  /** The standard's padded message, folded the way the kernel folds it. */
  lemma FinishFold<S>(g: Step<S>, s: S, blocks: seq<Block>, left: seq<bv8>)
    requires |left| < 64
    ensures var msg := Flatten(blocks) + left;
            Fold(g, s, Parse(msg + Padding(|msg|))) == FinishWith(g, Fold(g, s, blocks), left, |msg|)
  {
    var len := 64 * |blocks| + |left|;
    PaddedBlocks(blocks, left);
    if |left| < 56 {
      FoldMore(g, s, blocks, ShortTail(left, len));
    } else {
      var first, second := LongTailFirst(left), LongTailSecond(len);
      FoldMore(g, s, blocks, first);
      FoldMore(g, s, blocks + [first], second);
      assert blocks + [first] + [second] == blocks + TailBlocks(left, len);
    }
  }

  /** `n` shifted right by `j` bytes. */
  function Shift(n: nat, j: nat): nat {
    if j == 0 then n else Shift(n / 256, j - 1)
  }

  lemma {:induction false} BigEndianAt(n: nat, k: nat, i: nat)
    requires i < k
    ensures BigEndian(n, k)[i] == LowByte(Shift(n, k - 1 - i))
  {
    if i < k - 1 {
      BigEndianAt(n / 256, k - 1, i);
    }
  }

  lemma ShiftBytes(n: nat)
    ensures Shift(n, 1) == n / 0x100 && Shift(n, 2) == n / 0x1_0000
    ensures Shift(n, 3) == n / 0x100_0000 && Shift(n, 4) == n / 0x1_0000_0000
    ensures Shift(n, 5) == n / 0x100_0000_0000 && Shift(n, 6) == n / 0x1_0000_0000_0000
    ensures Shift(n, 7) == n / 0x100_0000_0000_0000
  {
    ShiftMore(n, 1);
    ShiftMore(n, 2);
    ShiftMore(n, 3);
    ShiftMore(n, 4);
    ShiftMore(n, 5);
    ShiftMore(n, 6);
  }

  lemma {:induction false} ShiftMore(n: nat, j: nat)
    ensures Shift(n, j + 1) == Shift(n, j) / 256
  {
    if j > 0 {
      ShiftMore(n / 256, j - 1);
    }
  }

  lemma LengthBytes(n: nat)
    ensures var b := BigEndian(n, 8);
            && b[0] == LowByte(n / 0x100_0000_0000_0000) && b[1] == LowByte(n / 0x1_0000_0000_0000)
            && b[2] == LowByte(n / 0x100_0000_0000) && b[3] == LowByte(n / 0x1_0000_0000)
            && b[4] == LowByte(n / 0x100_0000) && b[5] == LowByte(n / 0x1_0000)
            && b[6] == LowByte(n / 0x100) && b[7] == LowByte(n)
  {
    ShiftBytes(n);
    forall i | 0 <= i < 8
      ensures BigEndian(n, 8)[i] == LowByte(Shift(n, 7 - i))
    {
      BigEndianAt(n, 8, i);
    }
  }

  lemma OneMore(a: seq<bv8>, read: seq<bv8>, i: nat)
    requires i + 64 <= |read|
    ensures a + read[..i] + read[i..i + 64] == a + read[..i + 64]
  {
    Assoc(a, read[..i], read[i..i + 64]);
    SliceMore(read, i, i + 64);
  }

  // ---------- The kernel's code ----------

  /** SHA256_CTX. */
  class Context {
    const state: array<bv32>
    /** The compression, kept abstract from the bookkeeping. */
    ghost const g: Step<Digest>
    var count: nat
    const buffer: array<bv8>

    /** The context has taken in `blocks`, and keeps `left` for later. */
    ghost predicate Holds(blocks: seq<Block>, left: seq<bv8>)
      reads this, state, buffer
    {
      && state.Length == 8 && buffer.Length == 64 && g == Compress && |left| < 64
      && state[..] == Fold<Digest>(g, H0, blocks)
      && count == 64 * |blocks| + |left| && buffer[..|left|] == left
    }

    constructor ()
      ensures Holds([], []) && fresh(state) && fresh(buffer)
    {
      state := new bv32[8](i requires 0 <= i < 8 => H0[i]);
      count := 0;
      g := Compress;
      buffer := new bv8[64];
      new;
      assert state[..] == H0;
    }

    /** One pass of the read loop: the whole blocks of what was read are hashed,
        the rest kept for the padding. */
    method Update(read: seq<bv8>, ghost blocks: seq<Block>)
        returns (ghost more: seq<Block>, ghost left: seq<bv8>)
      requires Holds(blocks, [])
      modifies this, state, buffer
      ensures Holds(more, left) && Flatten(more) + left == Flatten(blocks) + read
      ensures left == read[64 * (|read| / 64)..]
    {
      var blockCount := |read| / 64;
      more := HashBlocks(read, blockCount, blocks);
      left := read[64 * blockCount..];
      if |read| % 64 != 0 {
        CopyTo(read[64 * blockCount..]);
      }
      count := count + |read|;
      Assoc(Flatten(blocks), read[..64 * blockCount], left);
      SplitAt(read, 64 * blockCount);
    }

    method HashBlocks(read: seq<bv8>, blockCount: nat, ghost blocks: seq<Block>)
        returns (ghost more: seq<Block>)
      requires state.Length == 8 && g == Compress && state[..] == Fold<Digest>(g, H0, blocks)
      requires 64 * blockCount <= |read|
      modifies state
      ensures state[..] == Fold<Digest>(g, H0, more) && |more| == |blocks| + blockCount
      ensures Flatten(more) == Flatten(blocks) + read[..64 * blockCount]
    {
      more := blocks;
      assert read[..0] == [];
      AppendNothing(Flatten(blocks));
      for i := 0 to blockCount
        invariant state[..] == Fold<Digest>(g, H0, more) && |more| == |blocks| + i
        invariant Flatten(more) == Flatten(blocks) + read[..64 * i]
      {
        more := HashNext(read, i, more, Flatten(blocks));
      }
    }

    method HashNext(read: seq<bv8>, i: nat, ghost now: seq<Block>, ghost before: seq<bv8>)
        returns (ghost more: seq<Block>)
      requires state.Length == 8 && g == Compress && state[..] == Fold<Digest>(g, H0, now)
      requires 64 * i + 64 <= |read| && Flatten(now) == before + read[..64 * i]
      modifies state
      ensures state[..] == Fold<Digest>(g, H0, more) && |more| == |now| + 1
      ensures Flatten(more) == before + read[..64 * (i + 1)]
    {
      more := HashBlock(read[64 * i..64 * i + 64], now);
      OneMore(before, read, 64 * i);
    }

    method HashBlock(block: Block, ghost blocks: seq<Block>) returns (ghost more: seq<Block>)
      requires state.Length == 8 && g == Compress && state[..] == Fold<Digest>(g, H0, blocks)
      modifies state
      ensures state[..] == Fold<Digest>(g, H0, more) && |more| == |blocks| + 1
      ensures Flatten(more) == Flatten(blocks) + block
    {
      Next(block);
      FoldMore<Digest>(g, H0, blocks, block);
      FlattenMore(blocks, block);
      more := blocks + [block];
    }

    method Next(block: Block)
      requires state.Length == 8 && g == Compress
      modifies state
      ensures state[..] == g(old(state[..]), block)
    {
      Transform(state, block);
    }

    method CopyTo(bytes: seq<bv8>)
      requires |bytes| <= buffer.Length
      modifies buffer
      ensures buffer[..] == bytes + old(buffer[|bytes|..])
    {
      for i := 0 to |bytes|
        invariant buffer[..i] == bytes[..i] && buffer[|bytes|..] == old(buffer[|bytes|..])
      {
        buffer[i] := bytes[i];
      }
      assert buffer[..] == buffer[..|bytes|] + buffer[|bytes|..];
    }

    /** The kernel's memset, whose ASSERT stops the machine on a size of 0. */
    method Memset0(from: nat, size: nat) returns (ok: bool)
      requires from + size <= buffer.Length
      modifies buffer
      ensures ok <==> size > 0
      ensures buffer[..] == old(buffer[..from]) + Zeros(size) + old(buffer[from + size..])
    {
      for i := 0 to size
        invariant buffer[from..from + i] == Zeros(i)
        invariant buffer[..from] == old(buffer[..from]) && buffer[from + size..] == old(buffer[from + size..])
      {
        buffer[from + i] := 0;
        assert buffer[from..from + i + 1] == buffer[from..from + i] + [buffer[from + i]];
      }
      assert buffer[..] == buffer[..from] + buffer[from..from + size] + buffer[from + size..];
      ok := size > 0;
    }

    method PutLength(bits: nat)
      requires buffer.Length == 64
      modifies buffer
      ensures buffer[..] == old(buffer[..56]) + BigEndian(bits, 8)
    {
      LengthBytes(bits);
      buffer[56] := LowByte(bits / 0x100_0000_0000_0000);
      buffer[57] := LowByte(bits / 0x1_0000_0000_0000);
      buffer[58] := LowByte(bits / 0x100_0000_0000);
      buffer[59] := LowByte(bits / 0x1_0000_0000);
      buffer[60] := LowByte(bits / 0x100_0000);
      buffer[61] := LowByte(bits / 0x1_0000);
      buffer[62] := LowByte(bits / 0x100);
      buffer[63] := LowByte(bits);
    }

    /** Padding and digest.  None is the stopped machine: the padding calls
        memset with a size of 0 exactly when 55 or 63 bytes are left over. */
    method Finish(ghost blocks: seq<Block>, ghost left: seq<bv8>) returns (digest: Option<seq<bv8>>)
      requires Holds(blocks, left)
      modifies state, buffer
      ensures digest == if |left| == 55 || |left| == 63 then None else Some(Hash(Flatten(blocks) + left))
    {
      FinishFold<Digest>(g, H0, blocks, left);
      var ok := FinishBlocks(left, |blocks|);
      if !ok {
        return None;
      }
      ghost var msg := Flatten(blocks) + left;
      assert |msg| == count;
      assert state[..] == Fold<Digest>(g, H0, Parse(msg + Padding(|msg|)));
      var d := Store();
      assert d == Hash(msg);
      return Some(d);
    }

    method FinishBlocks(ghost left: seq<bv8>, ghost q: nat) returns (ok: bool)
      requires state.Length == 8 && buffer.Length == 64 && g == Compress && |left| < 64
      requires count == 64 * q + |left| && buffer[..|left|] == left
      modifies state, buffer
      ensures ok <==> |left| != 55 && |left| != 63
      ensures ok ==> state[..] == FinishWith<Digest>(g, old(state[..]), left, count)
    {
      PaddingZeros(q, |left|);
      var remaining := count % 64;
      buffer[remaining] := 0x80;
      remaining := remaining + 1;
      assert buffer[..remaining] == left + [0x80];
      if remaining > 56 {
        ok := Memset0(remaining, 64 - remaining);
        if !ok {
          return;
        }
        FirstOfTwo(left);
        ok := Memset0(0, 56);
        assert buffer[..56] == LongTailSecond(count)[..56];
        LastBlock(LongTailSecond(count));
      } else {
        ok := Memset0(remaining, 64 - remaining - 8);
        if !ok {
          return;
        }
        assert buffer[..56] == ShortTail(left, count)[..56];
        LastBlock(ShortTail(left, count));
      }
    }

    /** The block that the leftover bytes fill without the length. */
    method FirstOfTwo(ghost left: seq<bv8>)
      requires state.Length == 8 && g == Compress && 56 <= |left| < 64
      requires buffer[..] == left + [0x80] + Zeros(63 - |left|)
      modifies state
      ensures state[..] == g(old(state[..]), LongTailFirst(left))
    {
      assert buffer[..] == LongTailFirst(left);
      Next(buffer[..]);
    }

    /** The block that ends with the length. */
    method LastBlock(ghost block: Block)
      requires state.Length == 8 && buffer.Length == 64 && g == Compress
      requires buffer[..56] == block[..56] && block[56..] == BigEndian(8 * count, 8)
      modifies state, buffer
      ensures state[..] == g(old(state[..]), block)
    {
      PutLength(8 * count);
      SplitAt(block, 56);
      Next(buffer[..]);
    }

    method Store() returns (digest: seq<bv8>)
      requires state.Length == 8
      ensures digest == DigestBytes(state[..])
    {
      digest := [];
      for i := 0 to 8
        invariant digest == DigestBytes(state[..])[..4 * i]
      {
        DigestMore(state[..], i);
        digest := digest + [ByteOf(state[i], 0), ByteOf(state[i], 1), ByteOf(state[i], 2), ByteOf(state[i], 3)];
      }
    }
  }

  /** A file marked as hashed carries its own digest in its last 32 bytes,
      which the hash leaves out; a shorter file is hashed whole, because the
      negative length is compared unsigned. */
  function Hashed(file: seq<bv8>, marked: bool): seq<bv8> {
    if marked && |file| >= 32 then file[..|file| - 32] else file
  }

  /** The file's hashed length as the 32-bit unsigned number it is compared as. */
  function HashSize(len: nat, marked: bool): (n: nat)
    requires len < 0x8000_0000
    ensures n == if marked && len < 32 then 0x1_0000_0000 + len - 32 else if marked then len - 32 else len
  {
    (if marked then len - 32 else len) % 0x1_0000_0000
  }

  method HashFile(file: seq<bv8>, marked: bool) returns (digest: Option<seq<bv8>>)
    requires |file| < 0x8000_0000
    ensures var msg := Hashed(file, marked);
            digest == if |msg| % 64 == 55 || |msg| % 64 == 63 then None else Some(Hash(msg))
  {
    var ctx := new Context();
    ghost var msg := Hashed(file, marked);
    ghost var blocks, left := ReadLoop(ctx, file, HashSize(|file|, marked), msg);
    PaddingZeros(|blocks|, |left|);
    assert |msg| == 64 * |blocks| + |left| && |msg| % 64 == |left|;
    digest := ctx.Finish(blocks, left);
  }

  /** Sixteen whole blocks leave nothing over. */
  lemma WholeBlocksLeft(read: seq<bv8>, left: seq<bv8>)
    requires left == read[64 * (|read| / 64)..]
    ensures |read| == 1024 ==> left == []
  {}

  /** The read loop; a read hands back at most what the file still holds.  Only
      the last read can be other than sixteen whole blocks. */
  method ReadLoop(ctx: Context, file: seq<bv8>, hashSize: nat, ghost msg: seq<bv8>)
      returns (ghost blocks: seq<Block>, ghost left: seq<bv8>)
    requires ctx.Holds([], []) && msg <= file && |msg| == Min(hashSize, |file|)
    modifies ctx, ctx.state, ctx.buffer
    ensures ctx.Holds(blocks, left) && Flatten(blocks) + left == msg
  {
    var totalRead := 0;
    blocks, left := [], [];
    while true
      invariant totalRead <= |msg| && (left == [] || totalRead == |msg|)
      invariant ctx.Holds(blocks, left) && Flatten(blocks) + left == msg[..totalRead]
      decreases |file| - totalRead
    {
      var bytesRead := Min(Min(1024, hashSize - totalRead), |file| - totalRead);
      if bytesRead <= 0 {
        break;
      }
      var next := totalRead + bytesRead;
      assert bytesRead == 1024 || next == |msg|;
      assert Flatten(blocks) == msg[..totalRead] by { AppendNothing(Flatten(blocks)); }
      SliceMore(msg, totalRead, next);
      assert msg[totalRead..next] == file[totalRead..next];
      ghost var before := blocks;
      blocks, left := ctx.Update(file[totalRead..next], before);
      WholeBlocksLeft(file[totalRead..next], left);
      totalRead := next;
      if totalRead >= hashSize {
        break;
      }
    }
    WholePrefix(msg, totalRead);
  }
}
