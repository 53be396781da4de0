/** Electronic code book mode over any cipher on sixteen-byte blocks, and
    PKCS #7 padding (section 6.3 of RFC 5652). */
module CodeBook {

  type Block = b: seq<bv8> | |b| == 16 witness seq(16, i => 0 as bv8)

  function Ecb(g: Block -> Block, data: seq<bv8>): (c: seq<bv8>)
    requires |data| % 16 == 0
    ensures |c| == |data|
  {
    if data == [] then [] else g(data[..16]) + Ecb(g, data[16..])
  }

  /** Block by block, a cipher's inverse undoes the whole. */
  lemma {:induction false} EcbInverts(g: Block -> Block, h: Block -> Block, data: seq<bv8>)
    requires |data| % 16 == 0 && forall b :: h(g(b)) == b
    ensures Ecb(h, Ecb(g, data)) == data
  {
    if data != [] {
      var c := Ecb(g, data);
      assert c[..16] == g(data[..16]) && c[16..] == Ecb(g, data[16..]);
      EcbInverts(g, h, data[16..]);
    }
  }

  lemma {:induction false} EcbExtend(g: Block -> Block, data: seq<bv8>, i: nat)
    requires i + 16 <= |data| && i % 16 == 0
    ensures Ecb(g, data[..i + 16]) == Ecb(g, data[..i]) + g(data[i..i + 16])
  {
    if i == 0 {
      assert data[..16][16..] == [];
      assert data[..16][..16] == data[0..16];
    } else {
      var rest := data[16..];
      assert rest[..i] == data[..i + 16][16..] && rest[..i - 16] == data[..i][16..];
      assert rest[i - 16..i] == data[i..i + 16];
      assert data[..i + 16][..16] == data[..i][..16];
      EcbExtend(g, rest, i - 16);
    }
  }

  lemma NextBlock(i: nat, len: nat)
    requires i % 16 == 0 && len % 16 == 0 && i < len
    ensures i + 16 <= len && (i + 16) % 16 == 0
  {}

  /** The buffer in mid-loop: `i` bytes transformed in place, the rest as was. */
  function Partly(g: Block -> Block, data: seq<bv8>, i: nat): seq<bv8>
    requires i <= |data| && i % 16 == 0
  {
    Ecb(g, data[..i]) + data[i..]
  }

  /** The buffer with the block at `off` transformed where it lies. */
  function WithBlock(g: Block -> Block, data: seq<bv8>, off: nat): seq<bv8>
    requires off + 16 <= |data|
  {
    data[..off] + g(data[off..off + 16]) + data[off + 16..]
  }

  lemma PartlyStep(g: Block -> Block, data: seq<bv8>, i: nat)
    requires i + 16 <= |data| && i % 16 == 0
    ensures Partly(g, data, i + 16) == WithBlock(g, Partly(g, data, i), i)
  {
    var now := Partly(g, data, i);
    assert now[..i] == Ecb(g, data[..i]) && now[i..i + 16] == data[i..i + 16];
    assert now[i + 16..] == data[i + 16..];
    EcbExtend(g, data, i);
  }

  /** Each block by itself, in its place. */
  lemma {:induction false} EcbAt(g: Block -> Block, data: seq<bv8>, i: nat)
    requires |data| % 16 == 0 && 16 * i + 16 <= |data|
    ensures Ecb(g, data)[16 * i..16 * i + 16] == g(data[16 * i..16 * i + 16])
  {
    if i > 0 {
      var rest := data[16..];
      EcbAt(g, rest, i - 1);
      assert rest[16 * (i - 1)..16 * (i - 1) + 16] == data[16 * i..16 * i + 16];
      assert Ecb(g, data)[16 * i..16 * i + 16] == Ecb(g, rest)[16 * (i - 1)..16 * (i - 1) + 16];
    }
  }

  function PadByte(len: nat): bv8 {
    (16 - len % 16) as bv8
  }

  function Pad(data: seq<bv8>): (p: seq<bv8>)
    ensures |p| % 16 == 0 && |data| < |p| <= |data| + 16
  {
    data + seq(16 - |data| % 16, i => PadByte(|data|))
  }

  /** Every byte of the padding is the number of bytes added. */
  lemma PadBytes(data: seq<bv8>)
    ensures Pad(data)[..|data|] == data
    ensures forall i :: |data| <= i < |Pad(data)| ==> Pad(data)[i] as int == |Pad(data)| - |data|
  {
    PadByteValue(|data|);
  }

  /** The unpadding looks at the last byte alone; 0 means no valid padding. */
  function UnpaddedLen(data: seq<bv8>): (n: nat)
    requires |data| % 16 == 0
    ensures n <= |data|
  {
    if data == [] then 0
    else
      var pad := data[|data| - 1];
      if pad > 16 || pad == 0 then 0 else |data| - pad as int
  }

  lemma UnpadPad(data: seq<bv8>)
    ensures UnpaddedLen(Pad(data)) == |data| && Pad(data)[..|data|] == data
  {
    PadByteValue(|data|);
    assert Pad(data)[|Pad(data)| - 1] == PadByte(|data|);
  }

  lemma PadByteValue(len: nat)
    ensures 1 <= PadByte(len) <= 16 && PadByte(len) as int == 16 - len % 16
  {}

  /** Decrypting an encrypted message gives back its bytes and its length; the
      decryption reports success (a length other than 0) exactly when the
      message was not empty. */
  lemma EcbRoundTrip(g: Block -> Block, h: Block -> Block, data: seq<bv8>)
    requires forall b :: h(g(b)) == b
    ensures var plain := Ecb(h, Ecb(g, Pad(data)));
            UnpaddedLen(plain) == |data| && plain[..|data|] == data
            && (UnpaddedLen(plain) != 0 <==> |data| >= 1)
  {
    EcbInverts(g, h, Pad(data));
    UnpadPad(data);
  }
}
