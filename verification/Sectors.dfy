/** The disk's sectors as bytes, the 128 little-endian words of an index sector,
    and a file's 140 blocks, 12 direct ones and the 128 of the index sector, seen
    as one run of 71680 bytes. */
module Sectors {

  type Byte = b: int | 0 <= b < 256

  predicate IsSector(s: seq<Byte>) { |s| == 512 }

  type Sector = s: seq<Byte> | IsSector(s) witness Zeros(512)

  function Zeros(n: nat): (s: seq<Byte>)
    ensures |s| == n && forall i :: 0 <= i < n ==> s[i] == 0
  {
    seq(n, i => 0)
  }

  const ZERO: Sector := Zeros(512)

  // ---------- Words ----------

  type Word = w: int | 0 <= w < 0x1_0000_0000

  function WordOf(a: Byte, b: Byte, c: Byte, d: Byte): Word {
    a + 256 * (b + 256 * (c + 256 * d))
  }

  function ByteOf(w: Word, k: nat): Byte
    requires k < 4
  {
    if k == 0 then w % 256
    else if k == 1 then w / 256 % 256
    else if k == 2 then w / 256 / 256 % 256
    else w / 256 / 256 / 256 % 256
  }

  lemma WordRoundTrip(w: Word)
    ensures WordOf(ByteOf(w, 0), ByteOf(w, 1), ByteOf(w, 2), ByteOf(w, 3)) == w
  {}

  /** What the processor reads when bytes are taken as an array of words. */
  function Words(s: seq<Byte>): (ws: seq<Word>)
    ensures |ws| == |s| / 4
  {
    seq(|s| / 4, i requires 0 <= i < |s| / 4 => WordOf(s[4 * i], s[4 * i + 1], s[4 * i + 2], s[4 * i + 3]))
  }

  function Bytes4(ws: seq<Word>): (s: seq<Byte>)
    ensures |s| == 4 * |ws|
  {
    seq(4 * |ws|, j requires 0 <= j < 4 * |ws| => ByteOf(ws[j / 4], j % 4))
  }

  /** Four bytes as a number, the first byte counting least. */
  function NumberAt(s: seq<Byte>, at: nat): (n: nat)
    requires at + 4 <= |s|
    ensures n < 0x1_0000_0000
  {
    var a: int, b: int, c: int, d: int := s[at], s[at + 1], s[at + 2], s[at + 3];
    a + 0x100 * b + 0x1_0000 * c + 0x100_0000 * d
  }

  /** Where each word lies, written and read. */
  lemma WordPlaces(ws: seq<Word>, s: seq<Byte>, i: nat)
    ensures i < |ws| ==> NumberAt(Bytes4(ws), 4 * i) == ws[i]
    ensures 4 * i + 4 <= |s| ==> Words(s)[i] == NumberAt(s, 4 * i)
  {
    if i < |ws| { WordAt(ws, i); }
  }

  lemma WordsOfZeros(n: nat, k: nat)
    requires k < n
    ensures Words(Zeros(4 * n))[k] == 0
  {}

  lemma WordsOfBytes(ws: seq<Word>)
    ensures Words(Bytes4(ws)) == ws
  {
    forall i | 0 <= i < |ws|
      ensures Words(Bytes4(ws))[i] == ws[i]
    {
      WordAt(ws, i);
    }
  }

  lemma WordAt(ws: seq<Word>, i: nat)
    requires i < |ws|
    ensures Words(Bytes4(ws))[i] == ws[i]
  {
    WordRoundTrip(ws[i]);
    Quarter(ws, i, 0);
    Quarter(ws, i, 1);
    Quarter(ws, i, 2);
    Quarter(ws, i, 3);
  }

  lemma Quarter(ws: seq<Word>, i: nat, k: nat)
    requires i < |ws| && k < 4
    ensures Bytes4(ws)[4 * i + k] == ByteOf(ws[i], k)
  {
    assert (4 * i + k) / 4 == i && (4 * i + k) % 4 == k;
  }

  /** An index sector that holds a table. */
  function Packed(ws: seq<Word>): Sector
    requires |ws| == 128
  {
    Bytes4(ws)
  }

  /** An index sector read back is the table written. */
  lemma WordsOfPacked(ws: seq<Word>)
    requires |ws| == 128
    ensures Words(Packed(ws)) == ws
  {
    WordsOfBytes(ws);
  }

  lemma WordsOfZero()
    ensures Words(ZERO) == seq(128, i => 0)
  {}

  // ---------- A file's bytes ----------

  /** memcpy into a sector from position `at`. */
  function Patch(s: Sector, at: nat, bytes: seq<Byte>): Sector
    requires at + |bytes| <= 512
  {
    s[..at] + bytes + s[at + |bytes|..]
  }

  /** The blocks of a file, holes and all that lies past its end being zero. */
  type Image = seq<Sector>

  function ByteAt(m: Image, j: nat): Byte
    requires |m| == 140 && j < 71680
  {
    m[j / 512][j % 512]
  }

  function Bytes(m: Image, size: nat): (b: seq<Byte>)
    requires |m| == 140 && size <= 71680
    ensures |b| == size
  {
    seq(size, j requires 0 <= j < size => ByteAt(m, j))
  }

  /** Block `k` patched, and nothing else. */
  ghost predicate PutIn(m: Image, m': Image, k: nat, at: nat, bytes: seq<Byte>) {
    |m| == 140 && k < 140 && at + |bytes| <= 512 && m' == m[k := Patch(m[k], at, bytes)]
  }

  lemma Split(k: nat, r: nat)
    requires r < 512
    ensures (512 * k + r) / 512 == k && (512 * k + r) % 512 == r
  {}

  /** Patching block `k` changes exactly the bytes written. */
  lemma PatchedBytes(m: Image, k: nat, at: nat, bytes: seq<Byte>, j: nat)
    requires |m| == 140 && k < 140 && at + |bytes| <= 512 && j < 71680
    ensures ByteAt(m[k := Patch(m[k], at, bytes)], j) ==
            if 512 * k + at <= j < 512 * k + at + |bytes| then bytes[j - (512 * k + at)] else ByteAt(m, j)
  {
    var q, r := j / 512, j % 512;
    assert j == 512 * q + r;
    if q == k {
      assert Patch(m[k], at, bytes)[r] ==
        if r < at then m[k][r] else if r < at + |bytes| then bytes[r - at] else m[k][r];
    }
  }

  /** What a write of `data` at `offset` makes of a file: it overlays, extends,
      and fills any gap with zeros. */
  function Written(old_: seq<Byte>, offset: nat, data: seq<Byte>): (s: seq<Byte>)
    ensures |s| == if offset + |data| >= |old_| then offset + |data| else |old_|
    ensures forall j :: 0 <= j < |s| ==>
              s[j] == if offset <= j < offset + |data| then data[j - offset] else if j < |old_| then old_[j] else 0
  {
    (if offset <= |old_| then old_[..offset] else old_ + Zeros(offset - |old_|))
    + data
    + (if offset + |data| <= |old_| then old_[offset + |data|..] else [])
  }

  /** Of two writes to one place only the longer later one is left; writes to
      places apart commute; and what was written is what is read there. */
  lemma WrittenTwice(old_: seq<Byte>, a: nat, data: seq<Byte>, b: nat, more: seq<Byte>)
    ensures Written(old_, a, data)[a..a + |data|] == data
    ensures a == b && |data| <= |more| ==> Written(Written(old_, a, data), b, more) == Written(old_, b, more)
    ensures a + |data| <= b ==>
              Written(Written(old_, a, data), b, more) == Written(Written(old_, b, more), a, data)
  {
    var one, two := Written(Written(old_, a, data), b, more), Written(Written(old_, b, more), a, data);
    if a + |data| <= b {
      assert |one| == |two| && forall j :: 0 <= j < |one| ==> one[j] == two[j];
    }
  }
}
