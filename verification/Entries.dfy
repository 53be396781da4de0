/** Directory entries and the 32 bytes each takes in a sector: 24 for the name,
    which ends at its first zero byte, then the inode number and the kind. */
module Entries {
  import opened Sectors

  /** f_type 0 marks a slot as free, 1 is a regular file, 2 a directory. */
  datatype Entry = Entry(name: string, ino: nat, kind: nat)

  /** A slot of zero bytes. */
  const EMPTY := Entry("", 0, 0)
  const ENTRY_SIZE: nat := 32
  const REGULAR: nat := 1

  type Block = seq<Entry>

  /** An entry that fits: its name leaves room for a terminator. */
  predicate EntryOk(e: Entry) {
    && |e.name| <= 23 && (forall k :: 0 <= k < |e.name| ==> 0 < e.name[k] as int < 256)
    && e.ino < 0x1_0000_0000 && e.kind < 0x1_0000_0000
  }

  function NameBytes(name: string): (s: seq<Byte>)
    requires |name| <= 23 && forall k :: 0 <= k < |name| ==> 0 < name[k] as int < 256
    ensures |s| == 24 && forall k :: 0 <= k < 24 ==> s[k] == if k < |name| then name[k] as int else 0
  {
    seq(24, k requires 0 <= k < 24 => if k < |name| then name[k] as int else 0)
  }

  /** A string up to its terminator, or all of it. */
  function NameOf(s: seq<Byte>): (name: string)
    ensures |name| <= |s|
  {
    if s == [] || s[0] == 0 then "" else [s[0] as char] + NameOf(s[1..])
  }

  function Encode(e: Entry): (s: seq<Byte>)
    requires EntryOk(e)
    ensures |s| == 32
  {
    NameBytes(e.name) + Bytes4([e.ino, e.kind])
  }

  function Decode(s: seq<Byte>): Entry
    requires |s| == 32
  {
    var w := Words(s[24..]);
    Entry(NameOf(s[..24]), w[0], w[1])
  }

  lemma {:induction false} NameBack(name: string, s: seq<Byte>)
    requires |name| < |s| && s[|name|] == 0
    requires forall k :: 0 <= k < |name| ==> 0 < name[k] as int < 256 && s[k] == name[k] as int
    ensures NameOf(s) == name
  {
    if name != "" {
      NameBack(name[1..], s[1..]);
      assert s[0] as char == name[0];
      assert name == [name[0]] + name[1..];
    }
  }

  /** An entry survives its bytes, and zero bytes are a free slot. */
  lemma DecodeEncode(e: Entry)
    requires EntryOk(e)
    ensures Decode(Encode(e)) == e
  {
    var s := Encode(e);
    NameBack(e.name, s[..24]);
    WordsOfBytes([e.ino, e.kind]);
    assert s[24..] == Bytes4([e.ino, e.kind]);
  }

  /** Where each field of an entry lies. */
  lemma FieldPlaces(e: Entry)
    requires EntryOk(e)
    ensures forall k :: 0 <= k < 24 ==> Encode(e)[k] == if k < |e.name| then e.name[k] as int else 0
    ensures NumberAt(Encode(e), 24) == e.ino && NumberAt(Encode(e), 28) == e.kind
  {
    WordPlaces([e.ino, e.kind], [], 0);
    WordPlaces([e.ino, e.kind], [], 1);
  }

  lemma DecodeZeros()
    ensures Decode(Zeros(32)) == EMPTY
  {
    assert Words(Zeros(32)[24..])[0] == 0 && Words(Zeros(32)[24..])[1] == 0;
  }

  function SlotBytes(s: Sector, i: nat): (b: seq<Byte>)
    requires i < 16
    ensures |b| == 32
  {
    s[32 * i..32 * i + 32]
  }

  /** The 16 slots of a sector. */
  function Unpack(s: Sector): (b: Block)
    ensures |b| == 16
  {
    seq(16, i requires 0 <= i < 16 => Decode(SlotBytes(s, i)))
  }

  /** 32 bytes copied over a slot change that slot and no other. */
  lemma UnpackPatch(s: Sector, i: nat, bytes: seq<Byte>)
    requires i < 16 && |bytes| == 32
    ensures Unpack(Patch(s, 32 * i, bytes)) == Unpack(s)[i := Decode(bytes)]
  {
    var t := Patch(s, 32 * i, bytes);
    forall j | 0 <= j < 16
      ensures Unpack(t)[j] == Unpack(s)[i := Decode(bytes)][j]
    {
      if j != i {
        SlotsApart(s, i, j, bytes);
      } else {
        assert SlotBytes(t, i) == bytes;
      }
    }
  }

  lemma SlotsApart(s: Sector, i: nat, j: nat, bytes: seq<Byte>)
    requires i < 16 && j < 16 && i != j && |bytes| == 32
    ensures SlotBytes(Patch(s, 32 * i, bytes), j) == SlotBytes(s, j)
  {
    var t := Patch(s, 32 * i, bytes);
    assert 32 * j + 32 <= 32 * i || 32 * i + 32 <= 32 * j;
    forall k | 0 <= k < 32
      ensures SlotBytes(t, j)[k] == SlotBytes(s, j)[k]
    {}
  }

  function ZeroBlock(): Block { seq(16, i => EMPTY) }

  lemma UnpackZero()
    ensures Unpack(ZERO) == ZeroBlock()
  {
    DecodeZeros();
    forall i | 0 <= i < 16
      ensures Unpack(ZERO)[i] == EMPTY
    {
      assert SlotBytes(ZERO, i) == Zeros(32);
    }
  }
}
