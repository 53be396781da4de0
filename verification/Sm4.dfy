/** SM4 (GB/T 32907-2016) in electronic code book mode with PKCS #7 padding. */
module Sm4 {
  import opened Sm4Tables
  import opened Sm4Functions
  import opened BigEndianWords
  import opened Feistel
  import opened CodeBook

  // ---------- Blocks of sixteen bytes ----------

  function Words(b: seq<bv8>): (x: seq<bv32>)
    requires |b| == 16
    ensures |x| == 4
  {
    [Word(b, 0), Word(b, 4), Word(b, 8), Word(b, 12)]
  }

  function Bytes(x: seq<bv32>): (b: seq<bv8>)
    requires |x| == 4
    ensures |b| == 16
  {
    seq(16, i requires 0 <= i < 16 => ByteOf(x[i / 4], i % 4))
  }

  lemma WordsOfBytes(x: seq<bv32>)
    requires |x| == 4
    ensures Words(Bytes(x)) == x
  {
    BytesOfWord(x[0]);
    BytesOfWord(x[1]);
    BytesOfWord(x[2]);
    BytesOfWord(x[3]);
  }

  lemma BytesOfWords(b: seq<bv8>)
    requires |b| == 16
    ensures Bytes(Words(b)) == b
  {
    WordOfBytes(b, 0);
    WordOfBytes(b, 4);
    WordOfBytes(b, 8);
    WordOfBytes(b, 12);
  }

  function CryptBlock(mix: Mix<bv32>, b: Block, rk: seq<bv32>): Block {
    Bytes(Crypt(mix, Words(b), rk))
  }

  lemma CryptBlockInverts(mix: Mix<bv32>, b: Block, rk: seq<bv32>)
    requires Reversible(mix)
    ensures CryptBlock(mix, CryptBlock(mix, b, rk), Reversed(rk)) == b
  {
    WordsOfBytes(Crypt(mix, Words(b), rk));
    CryptInverts(mix, Words(b), rk);
    BytesOfWords(b);
  }

  /** The cipher under its round keys, and its inverse. */
  function Encipher(mix: Mix<bv32>, rk: seq<bv32>): Block -> Block {
    b => CryptBlock(mix, b, rk)
  }

  function Decipher(mix: Mix<bv32>, rk: seq<bv32>): Block -> Block {
    b => CryptBlock(mix, b, Reversed(rk))
  }

  /** What EcbDecrypt makes of what EcbEncrypt left in the buffer: the message
      and its length, reported as success exactly when the message had at least
      one byte. */
  lemma RoundTrip(mix: Mix<bv32>, data: seq<bv8>, rk: seq<bv32>)
    requires Reversible(mix)
    ensures var plain := Ecb(Decipher(mix, rk), Ecb(Encipher(mix, rk), Pad(data)));
            UnpaddedLen(plain) == |data| && plain[..|data|] == data
            && (UnpaddedLen(plain) != 0 <==> |data| >= 1)
  {
    var g, h := Encipher(mix, rk), Decipher(mix, rk);
    forall b
      ensures h(g(b)) == b
    {
      CryptBlockInverts(mix, b, rk);
    }
    EcbRoundTrip(g, h, data);
  }

  // ---------- The kernel's code ----------

  function Inner(b: bv32, c: bv32, d: bv32, k: bv32): bv32 { b ^ c ^ d ^ k }

  /** A step of the network around any function of one word. */
  function Around(f: bv32 -> bv32): Mix<bv32> {
    (a, b, c, d, k) => a ^ f(Inner(b, c, d, k))
  }

  lemma XorBack(a: bv32, y: bv32)
    ensures (a ^ y) ^ y == a
  {}

  lemma MixBack(b: bv32, c: bv32, d: bv32, k: bv32)
    ensures Inner(d, c, b, k) == Inner(b, c, d, k)
  {}

  /** Every such step is reversible, T and TPrime included. */
  lemma AroundReversible(f: bv32 -> bv32)
    ensures Reversible(Around(f))
  {
    forall a, b, c, d, k
      ensures Around(f)(Around(f)(a, b, c, d, k), d, c, b, k) == a
    {
      MixBack(b, c, d, k);
      XorBack(a, f(Inner(b, c, d, k)));
    }
  }

  function MasterWords(mk: seq<bv8>): (k: seq<bv32>)
    requires |mk| == 16
    ensures |k| == 4
  {
    var x := Words(mk);
    [x[0] ^ FK[0], x[1] ^ FK[1], x[2] ^ FK[2], x[3] ^ FK[3]]
  }

  method LoadKey(mk: array<bv8>) returns (k: array<bv32>)
    requires mk.Length == 16
    ensures fresh(k) && k.Length == 36 && k[..4] == MasterWords(mk[..])
  {
    k := new bv32[36];
    var b := mk[..];
    k[0], k[1], k[2], k[3] := Word(b, 0), Word(b, 4), Word(b, 8), Word(b, 12);
    k[0] := k[0] ^ FK[0];
    k[1] := k[1] ^ FK[1];
    k[2] := k[2] ^ FK[2];
    k[3] := k[3] ^ FK[3];
  }

  /** The round keys are the words that a network around TPrime produces. */
  method KeySchedule(mk: array<bv8>, rk: array<bv32>)
    requires mk.Length == 16 && rk.Length == 32
    modifies rk
    ensures rk[..] == Trace(Around(TPrime), MasterWords(old(mk[..])), CK, 32)[4..]
  {
    var k := LoadKey(mk);
    ghost var key := MasterWords(mk[..]);
    ScheduleRounds(Around(TPrime), k, key, rk);
  }

  method ScheduleRounds(mix: Mix<bv32>, k: array<bv32>, ghost key: seq<bv32>, rk: array<bv32>)
    requires k.Length == 36 && rk.Length == 32 && k != rk && k[..4] == key && |CK| == 32
    modifies k, rk
    ensures rk[..] == Trace(mix, key, CK, 32)[4..]
  {
    Rounds(mix, k, CK);
    ghost var t := k[..];
    for i := 0 to 32
      invariant k[..] == t && rk[..i] == t[4..i + 4]
    {
      rk[i] := k[i + 4];
      assert rk[..i + 1] == rk[..i] + [rk[i]];
    }
    assert rk[..] == rk[..32];
  }

  /** One block: load four words, run the rounds, store the last four reversed.
      The block may be encrypted where it lies. */
  method Encrypt(mix: Mix<bv32>, data: array<bv8>, off: nat, rk: seq<bv32>)
    requires off + 16 <= data.Length && |rk| == 32
    modifies data
    ensures data[..] == WithBlock(Encipher(mix, rk), old(data[..]), off)
  {
    var x := LoadBlock(data, off);
    Rounds(mix, x, rk);
    StoreBlock(data, off, x);
    assert x[32..] == x[..][32..];
  }

  method Decrypt(mix: Mix<bv32>, data: array<bv8>, off: nat, rk: seq<bv32>) returns (temp: array<bv8>)
    requires off + 16 <= data.Length && |rk| == 32
    ensures fresh(temp) && temp[..] == Decipher(mix, rk)(data[off..off + 16])
  {
    var x := LoadBlock(data, off);
    RoundsBackwards(mix, x, rk);
    temp := new bv8[16];
    StoreBlock(temp, 0, x);
    assert x[32..] == x[..][32..];
  }

  method LoadBlock(data: array<bv8>, off: nat) returns (x: array<bv32>)
    requires off + 16 <= data.Length
    ensures fresh(x) && x.Length == 36 && x[..4] == Words(data[off..off + 16])
  {
    x := new bv32[36];
    var b := data[off..off + 16];
    x[0], x[1], x[2], x[3] := Word(b, 0), Word(b, 4), Word(b, 8), Word(b, 12);
  }

  method StoreBlock(data: array<bv8>, off: nat, x: array<bv32>)
    requires off + 16 <= data.Length && x.Length == 36
    modifies data
    ensures data[..] == old(data[..off] + Bytes(Reversed(x[32..])) + data[off + 16..])
  {
    for i := 0 to 16
      invariant data[off..off + i] == Bytes(Reversed(x[32..]))[..i]
      invariant data[..off] == old(data[..off]) && data[off + 16..] == old(data[off + 16..])
    {
      data[off + i] := ByteOf(x[35 - i / 4], i % 4);
      assert data[off..off + i + 1] == data[off..off + i] + [data[off + i]];
    }
    assert data[..] == data[..off] + data[off..off + 16] + data[off + 16..];
  }

  /** 0 when the buffer cannot take a whole extra block.  The sum of the length and
      16 must not wrap around 32 bits. */
  method Padding(buffer: array<bv8>, inputLen: nat, bufferSize: nat) returns (len: nat)
    requires bufferSize <= buffer.Length && inputLen + 16 < 0x1_0000_0000
    modifies buffer
    ensures len == if bufferSize < inputLen + 16 then 0 else |Pad(old(buffer[..])[..inputLen])|
    ensures len == 0 ==> unchanged(buffer)
    ensures len != 0 ==>
              buffer[..] == old(Pad(buffer[..inputLen]) + buffer[inputLen + 16 - inputLen % 16..])
  {
    if bufferSize < inputLen + 16 {
      return 0;
    }
    var pad := 16 - inputLen % 16;
    for i := 0 to pad
      invariant forall k :: inputLen <= k < inputLen + i ==> buffer[k] == PadByte(inputLen)
      invariant buffer[..inputLen] == old(buffer[..inputLen])
      invariant buffer[inputLen + pad..] == old(buffer[inputLen + pad..])
    {
      buffer[inputLen + i] := pad as bv8;
    }
    assert buffer[inputLen..inputLen + pad] == seq(pad, i => PadByte(inputLen));
    assert buffer[..] == buffer[..inputLen] + buffer[inputLen..inputLen + pad] + buffer[inputLen + pad..];
    return inputLen + pad;
  }

  method EncryptBlocks(mix: Mix<bv32>, data: array<bv8>, len: nat, rk: seq<bv32>)
    requires len <= data.Length && len % 16 == 0 && |rk| == 32
    modifies data
    ensures data[..] == Partly(Encipher(mix, rk), old(data[..]), len)
  {
    ghost var plain, g := data[..], Encipher(mix, rk);
    var i := 0;
    while i < len
      invariant i <= len && i % 16 == 0 && data[..] == Partly(g, plain, i)
      decreases len - i
    {
      NextBlock(i, len);
      PartlyStep(g, plain, i);
      Encrypt(mix, data, i, rk);
      i := i + 16;
    }
  }

  method DecryptBlocks(mix: Mix<bv32>, data: array<bv8>, len: nat, rk: seq<bv32>)
    requires len <= data.Length && len % 16 == 0 && |rk| == 32
    modifies data
    ensures data[..] == Partly(Decipher(mix, rk), old(data[..]), len)
  {
    ghost var cipher, g := data[..], Decipher(mix, rk);
    var i := 0;
    while i < len
      invariant i <= len && i % 16 == 0 && data[..] == Partly(g, cipher, i)
      decreases len - i
    {
      NextBlock(i, len);
      PartlyStep(g, cipher, i);
      DecryptInPlace(mix, data, i, rk);
      i := i + 16;
    }
  }

  method DecryptInPlace(mix: Mix<bv32>, data: array<bv8>, off: nat, rk: seq<bv32>)
    requires off + 16 <= data.Length && |rk| == 32
    modifies data
    ensures data[..] == WithBlock(Decipher(mix, rk), old(data[..]), off)
  {
    var temp := Decrypt(mix, data, off, rk);
    CopyBlock(data, off, temp);
  }

  method CopyBlock(data: array<bv8>, off: nat, temp: array<bv8>)
    requires off + 16 <= data.Length && temp.Length == 16 && temp != data
    modifies data
    ensures data[..] == old(data[..off] + temp[..] + data[off + 16..])
  {
    for i := 0 to 16
      invariant data[off..off + i] == temp[..i] && temp[..] == old(temp[..])
      invariant data[..off] == old(data[..off]) && data[off + 16..] == old(data[off + 16..])
    {
      data[off + i] := temp[i];
      assert data[off..off + i + 1] == data[off..off + i] + [data[off + i]];
    }
    assert data[..] == data[..off] + data[off..off + 16] + data[off + 16..];
  }

  /** Status 0 when the message was padded and encrypted in place, -2 or -3
      when the buffer is too small, and then nothing changes. */
  method EcbEncrypt(mix: Mix<bv32>, data: array<bv8>, dataLen: nat, bufferSize: nat, rk: seq<bv32>)
      returns (status: int, outputLen: nat)
    requires bufferSize <= data.Length && dataLen + 16 < 0x1_0000_0000 && |rk| == 32
    modifies data
    ensures status == if bufferSize < (dataLen + 15) / 16 * 16 then -2
                      else if bufferSize < dataLen + 16 then -3 else 0
    ensures status != 0 ==> unchanged(data)
    ensures status == 0 ==>
              var padded := Pad(old(data[..dataLen]));
              outputLen == |padded|
              && data[..] == Ecb(Encipher(mix, rk), padded) + old(data[..])[outputLen..]
  {
    var paddedLen := (dataLen + 15) / 16 * 16;
    if bufferSize < paddedLen {
      return -2, 0;
    }
    paddedLen := Padding(data, dataLen, bufferSize);
    if paddedLen == 0 {
      return -3, 0;
    }
    ghost var padded := Pad(old(data[..dataLen]));
    assert old(data[..])[..dataLen] == old(data[..dataLen]);
    assert data[..][..paddedLen] == padded && data[..][paddedLen..] == old(data[..])[paddedLen..];
    EncryptBlocks(mix, data, paddedLen, rk);
    return 0, paddedLen;
  }

  /** The blocks are decrypted in place whatever the padding turns out to be. */
  method EcbDecrypt(mix: Mix<bv32>, data: array<bv8>, dataLen: nat, rk: seq<bv32>) returns (status: int, outputLen: nat)
    requires dataLen <= data.Length && |rk| == 32
    modifies data
    ensures dataLen % 16 != 0 ==> status == -1 && unchanged(data)
    ensures dataLen % 16 == 0 ==>
              var plain := Ecb(Decipher(mix, rk), old(data[..dataLen]));
              data[..] == plain + old(data[..])[dataLen..]
              && status == (if UnpaddedLen(plain) == 0 then -2 else 0)
              && (status == 0 ==> outputLen == UnpaddedLen(plain))
  {
    if dataLen % 16 != 0 {
      return -1, 0;
    }
    DecryptBlocks(mix, data, dataLen, rk);
    assert old(data[..])[..dataLen] == old(data[..dataLen]);
    assert data[..dataLen] == data[..][..dataLen] == Ecb(Decipher(mix, rk), old(data[..dataLen]));
    var unpadded := Unpadding(data, dataLen);
    if unpadded == 0 {
      return -2, 0;
    }
    return 0, unpadded;
  }

  method Unpadding(buffer: array<bv8>, inputLen: nat) returns (len: nat)
    requires inputLen <= buffer.Length && inputLen % 16 == 0
    ensures len == UnpaddedLen(buffer[..inputLen])
  {
    if inputLen == 0 {
      return 0;
    }
    var pad := buffer[inputLen - 1];
    if pad > 16 || pad == 0 {
      return 0;
    }
    return inputLen - pad as int;
  }

  /** The kernel's cipher under a key: what is encrypted and decrypted in one
      buffer comes back, with its length, for every message of at least one byte
      and every buffer with room for a whole extra block.  An empty message is
      refused by the decryption, a smaller buffer by the encryption. */
  method ThereAndBack(data: array<bv8>, dataLen: nat, bufferSize: nat, mk: array<bv8>)
      returns (encrypted: int, decrypted: int, cipherLen: nat, plainLen: nat)
    requires dataLen <= bufferSize <= data.Length && bufferSize < 0x1_0000_0000 && dataLen + 16 < 0x1_0000_0000
    requires mk.Length == 16 && mk != data
    modifies data
    ensures encrypted == 0 <==> dataLen + 16 <= bufferSize
    ensures encrypted != 0 ==> unchanged(data)
    ensures encrypted == 0 ==> dataLen < cipherLen <= dataLen + 16 && cipherLen % 16 == 0
    ensures encrypted == 0 ==> decrypted == if dataLen == 0 then -2 else 0
    ensures encrypted == 0 && decrypted == 0 ==> plainLen == dataLen
    ensures encrypted == 0 ==>
              data[..dataLen] == old(data[..dataLen]) && data[cipherLen..] == old(data[..])[cipherLen..]
  {
    var rk := new bv32[32];
    KeySchedule(mk, rk);
    AroundReversible(T);
    encrypted, decrypted, cipherLen, plainLen := EcbThereAndBack(Around(T), data, dataLen, bufferSize, rk[..]);
  }

  method EcbThereAndBack(mix: Mix<bv32>, data: array<bv8>, dataLen: nat, bufferSize: nat, rk: seq<bv32>)
      returns (encrypted: int, decrypted: int, cipherLen: nat, plainLen: nat)
    requires dataLen <= bufferSize <= data.Length && dataLen + 16 < 0x1_0000_0000
    requires Reversible(mix) && |rk| == 32
    modifies data
    ensures encrypted == 0 <==> dataLen + 16 <= bufferSize
    ensures encrypted != 0 ==> unchanged(data)
    ensures encrypted == 0 ==>
              && cipherLen == |Pad(old(data[..dataLen]))| && decrypted == (if dataLen == 0 then -2 else 0)
              && (decrypted == 0 ==> plainLen == dataLen)
              && data[..dataLen] == old(data[..dataLen]) && data[cipherLen..] == old(data[..])[cipherLen..]
  {
    decrypted, plainLen := -1, 0;
    encrypted, cipherLen := EcbEncrypt(mix, data, dataLen, bufferSize, rk);
    if encrypted == 0 {
      ghost var message := old(data[..dataLen]);
      assert data[..cipherLen] == Ecb(Encipher(mix, rk), Pad(message));
      decrypted, plainLen := Recover(mix, data, cipherLen, rk, message);
    }
  }

  /** The decryption of an encrypted message. */
  method Recover(mix: Mix<bv32>, data: array<bv8>, cipherLen: nat, rk: seq<bv32>, ghost message: seq<bv8>)
      returns (status: int, len: nat)
    requires Reversible(mix) && |rk| == 32 && cipherLen <= data.Length
    requires data[..cipherLen] == Ecb(Encipher(mix, rk), Pad(message))
    modifies data
    ensures |message| <= cipherLen && data[..|message|] == message && data[cipherLen..] == old(data[cipherLen..])
    ensures status == (if |message| == 0 then -2 else 0) && (status == 0 ==> len == |message|)
  {
    RoundTrip(mix, message, rk);
    ghost var plain := Ecb(Decipher(mix, rk), data[..cipherLen]);
    status, len := EcbDecrypt(mix, data, cipherLen, rk);
    assert data[..|message|] == plain[..|message|];
  }
}
