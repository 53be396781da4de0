/** Which blocks a file uses, how its inode and its index sector record that,
    and how the block bitmap and all files together account for every block. */
module BlockMaps {
  import opened Sectors
  import B = Bitmaps

  type Ino = nat

  /** The part of an inode that the block map needs. */
  datatype Inode = Inode(size: nat, sectors: seq<Word>)

  /** The sector numbers of a file's blocks, as the kernel loads them into a
      buffer, and the number of its index sector; 0 stands for none.  The entry
      after the last block stays 0. */
  datatype FileMap = FileMap(all: seq<Word>, index: Word)

  /** The place of the index sector, after those of the blocks. */
  const INDEX: nat := 141

  predicate IsMap(m: FileMap) { |m.all| == 141 }

  function Place(m: FileMap, k: nat): Word
    requires IsMap(m) && k <= INDEX
  {
    if k == INDEX then m.index else m.all[k]
  }

  function SetPlace(m: FileMap, k: nat, b: Word): (r: FileMap)
    requires IsMap(m) && k <= INDEX
    ensures IsMap(r) && forall x: nat :: x <= INDEX ==> Place(r, x) == if x == k then b else Place(m, x)
  {
    if k == INDEX then m.(index := b) else m.(all := m.all[k := b])
  }

  /** A file of `n` blocks: the first n are there, and the index sector if one
      of them needs it. */
  ghost predicate Shaped(m: FileMap, n: nat) {
    && IsMap(m)
    && (forall k :: 0 <= k < 141 ==> (m.all[k] != 0 <==> k < n))
    && (m.index != 0 <==> n > 12)
  }

  /** Blocks taken by a file of n data blocks. */
  function Taken(n: nat): nat { if n > 12 then n + 1 else n }

  /** The least number of blocks that hold so many bytes. */
  function BlocksFor(size: nat): (n: nat)
    ensures 512 * n >= size && (n > 0 ==> 512 * (n - 1) < size)
  {
    (size + 511) / 512
  }

  // ---------- The bitmap and the files ----------

  /** Every set bit belongs to one place of one file or to a directory, and the
      other way round.  `kept` are the directories' blocks; the root's first one
      is the first block of all. */
  ghost predicate Booked(bits: seq<bool>, base: nat, own: map<nat, (Ino, nat)>, kept: set<nat>,
                         maps: map<Ino, FileMap>) {
    && base > 0 && base in kept
    && (forall b :: 0 <= b < |bits| ==> (bits[b] <==> base + b in own || base + b in kept))
    && (forall b :: b in kept ==> base <= b < base + |bits| && b !in own)
    && (forall i :: i in maps ==> IsMap(maps[i]))
    && (forall b :: b in own ==>
          && base < b < base + |bits| && own[b].0 in maps && own[b].1 <= INDEX
          && Place(maps[own[b].0], own[b].1) == b)
    && (forall i, k :: i in maps && 0 <= k <= INDEX && Place(maps[i], k) != 0 ==>
          Place(maps[i], k) in own && own[Place(maps[i], k)] == (i, k))
  }

  lemma AddBlock(bits: seq<bool>, base: nat, own: map<nat, (Ino, nat)>, kept: set<nat>, maps: map<Ino, FileMap>,
                 i: Ino, k: nat, b: Word)
    requires Booked(bits, base, own, kept, maps) && i in maps && k <= INDEX && Place(maps[i], k) == 0
    requires base <= b < base + |bits| && !bits[b - base]
    ensures b !in own && b !in kept
    ensures Booked(bits[b - base := true], base, own[b := (i, k)], kept, maps[i := SetPlace(maps[i], k, b)])
  {
    assert base + (b - base) == b;
  }

  lemma RemoveBlock(bits: seq<bool>, base: nat, own: map<nat, (Ino, nat)>, kept: set<nat>, maps: map<Ino, FileMap>,
                    i: Ino, k: nat)
    requires Booked(bits, base, own, kept, maps) && i in maps && k <= INDEX && Place(maps[i], k) != 0
    ensures var b := Place(maps[i], k);
            && base < b < base + |bits| && bits[b - base]
            && Booked(bits[b - base := false], base, own - {b}, kept, maps[i := SetPlace(maps[i], k, 0)])
  {
    var b := Place(maps[i], k);
    assert b in own && own[b] == (i, k);
    assert base + (b - base) == b;
  }

  /** A block taken by a directory. */
  lemma KeepBlock(bits: seq<bool>, base: nat, own: map<nat, (Ino, nat)>, kept: set<nat>, maps: map<Ino, FileMap>,
                  b: Word)
    requires Booked(bits, base, own, kept, maps) && base <= b < base + |bits| && !bits[b - base]
    ensures b !in own && b !in kept
    ensures Booked(bits[b - base := true], base, own, kept + {b}, maps)
  {
    assert base + (b - base) == b;
  }

  /** The files and the directories' blocks alone determine the bitmap. */
  lemma BitsDetermined(bits: seq<bool>, own: map<nat, (Ino, nat)>, bits': seq<bool>, own': map<nat, (Ino, nat)>,
                       base: nat, kept: set<nat>, maps: map<Ino, FileMap>)
    requires Booked(bits, base, own, kept, maps) && Booked(bits', base, own', kept, maps) && |bits| == |bits'|
    ensures bits == bits'
  {
    forall b | 0 <= b < |bits|
      ensures bits[b] == bits'[b]
    {
      assert base + b in own <==> base + b in own';
    }
  }

  /** A file has block b in place k of its map. */
  predicate HasBlock(m: FileMap, k: nat, b: nat) {
    IsMap(m) && k <= INDEX && b != 0 && Place(m, k) == b
  }

  ghost predicate InSomeFile(maps: map<Ino, FileMap>, b: nat) {
    exists i, k: nat :: i in maps && HasBlock(maps[i], k, b)
  }

  /** The set bits are, without overlap, those of the directories' blocks and of
      the files' data blocks and index sectors; no other bit is set. */
  ghost predicate Conserved(bits: seq<bool>, base: nat, kept: set<nat>, maps: map<Ino, FileMap>) {
    && (forall b :: 0 <= b < |bits| ==>
          (bits[b] <==> base + b in kept || InSomeFile(maps, base + b)))
    && (forall i, k: nat, b: nat :: i in maps && HasBlock(maps[i], k, b) ==> b !in kept)
    && (forall i, j, k: nat, l: nat, b: nat ::
          i in maps && j in maps && HasBlock(maps[i], k, b) && HasBlock(maps[j], l, b) ==> i == j && k == l)
  }

  lemma BitsAreFootprints(bits: seq<bool>, base: nat, own: map<nat, (Ino, nat)>, kept: set<nat>,
                          maps: map<Ino, FileMap>)
    requires Booked(bits, base, own, kept, maps)
    ensures Conserved(bits, base, kept, maps)
  {
    forall i, k: nat, b: nat | i in maps && HasBlock(maps[i], k, b)
      ensures b !in kept && b in own && own[b] == (i, k)
    {
      OwnedAt(bits, base, own, kept, maps, i, k, b);
    }
    forall b | 0 <= b < |bits|
      ensures bits[b] <==> base + b in kept || InSomeFile(maps, base + b)
    {
      if bits[b] && base + b !in kept {
        var (i, k) := own[base + b];
        assert HasBlock(maps[i], k, base + b);
      }
    }
  }

  lemma OwnedAt(bits: seq<bool>, base: nat, own: map<nat, (Ino, nat)>, kept: set<nat>, maps: map<Ino, FileMap>,
                i: Ino, k: nat, b: nat)
    requires Booked(bits, base, own, kept, maps) && i in maps && HasBlock(maps[i], k, b)
    ensures b in own && own[b] == (i, k) && b !in kept && base < b < base + |bits|
  {
    assert Place(maps[i], k) == b;
  }

  // ---------- What the disk records of one file ----------

  predicate OnDisk(disk: seq<Sector>, m: FileMap)
    requires IsMap(m)
  {
    m.index < |disk| && forall k :: 0 <= k < 141 ==> m.all[k] < |disk|
  }

  /** The inode and the index sector hold the file's map. */
  ghost predicate Stored(disk: seq<Sector>, sectors: seq<Word>, m: FileMap)
    requires IsMap(m) && OnDisk(disk, m)
  {
    && sectors == m.all[..12] + [m.index]
    && (if m.index != 0 then Words(disk[m.index]) == m.all[12..140]
        else forall k :: 12 <= k < 140 ==> m.all[k] == 0)
  }

  /** What the kernel loads: the direct blocks, then the index sector's. */
  function AllBlocks(disk: seq<Sector>, sectors: seq<Word>): (all: seq<Word>)
    requires |sectors| == 13 && sectors[12] < |disk|
    ensures |all| == 141
  {
    sectors[..12] + (if sectors[12] != 0 then Words(disk[sectors[12]]) else seq(128, i => 0)) + [0]
  }

  lemma Loaded(disk: seq<Sector>, sectors: seq<Word>, m: FileMap)
    requires IsMap(m) && m.all[140] == 0 && OnDisk(disk, m) && Stored(disk, sectors, m)
    ensures |sectors| == 13 && sectors[12] == m.index && m.index < |disk| && AllBlocks(disk, sectors) == m.all
  {
    assert Place(m, INDEX) == m.index;
    var all := AllBlocks(disk, sectors);
    forall k | 0 <= k < 141
      ensures all[k] == m.all[k]
    {
      if 12 <= k < 140 && m.index != 0 {
        assert m.all[12..140][k - 12] == m.all[k];
      }
    }
  }

  /** An inode's entries and its index sector, on the disk, hold a table without
      gaps; the last entry is 0. */
  predicate MapTable(disk: seq<Sector>, sectors: seq<Word>, m: seq<Word>) {
    && |sectors| == 13 && sectors[12] < |disk| && |m| == 141 && m[140] == 0
    && (forall x :: 0 <= x < 12 ==> sectors[x] == m[x])
    && (if sectors[12] != 0 then Words(disk[sectors[12]]) == m[12..140] else m[12] == 0)
    && (forall x, y :: 0 <= x < y < 141 && m[x] == 0 ==> m[y] == 0)
  }

  lemma FileMapTable(disk: seq<Sector>, f: Inode, m: FileMap)
    requires FileOk(disk, f, m)
    ensures MapTable(disk, f.sectors, m.all)
  {
    Loaded(disk, f.sectors, m);
  }

  /** The buffer after the entries before k, the last of which brings the index
      sector's; nothing is in it where the loop has stopped. */
  predicate TableLoaded(all: seq<Word>, m: seq<Word>, k: nat) {
    && |all| == 140 && |m| == 141 && k <= 13
    && (forall x :: 0 <= x < k && x < 12 ==> all[x] == m[x])
    && (if k == 13 then forall x :: 12 <= x < 140 ==> all[x] == m[x] else forall x :: k <= x < 140 ==> all[x] == 0)
  }

  function ImageOf(disk: seq<Sector>, all: seq<Word>): (m: Image)
    requires |all| == 141 && forall k :: 0 <= k < 141 ==> all[k] < |disk|
    ensures |m| == 140
  {
    seq(140, k requires 0 <= k < 140 => if all[k] == 0 then ZERO else disk[all[k]])
  }

  /** The bytes of a file, from what the disk and the inode record. */
  function Contents(disk: seq<Sector>, f: Inode): seq<Byte>
    requires |f.sectors| == 13 && f.sectors[12] < |disk| && f.size <= 71680
    requires forall k :: 0 <= k < 141 ==> AllBlocks(disk, f.sectors)[k] < |disk|
  {
    Bytes(ImageOf(disk, AllBlocks(disk, f.sectors)), f.size)
  }

  ghost predicate ZeroFrom(m: Image, size: nat) {
    |m| == 140 && forall j :: size <= j < 71680 ==> ByteAt(m, j) == 0
  }

  /** A file of `size` bytes has just the blocks it needs, its map is on the
      disk, and every byte past its end is zero. */
  ghost predicate FileOk(disk: seq<Sector>, f: Inode, m: FileMap) {
    && f.size <= 71680 && Shaped(m, BlocksFor(f.size))
    && OnDisk(disk, m) && Stored(disk, f.sectors, m)
    && ZeroFrom(ImageOf(disk, m.all), f.size)
  }

  ghost predicate SameBlocks(disk: seq<Sector>, disk': seq<Sector>, m: FileMap)
    requires IsMap(m) && OnDisk(disk, m)
  {
    |disk'| == |disk| && forall k :: 0 <= k <= INDEX && Place(m, k) != 0 ==> disk'[Place(m, k)] == disk[Place(m, k)]
  }

  /** A file whose blocks are untouched keeps its map and its bytes. */
  lemma Frame(disk: seq<Sector>, disk': seq<Sector>, m: FileMap)
    requires IsMap(m) && OnDisk(disk, m) && SameBlocks(disk, disk', m)
    ensures OnDisk(disk', m)
    ensures ImageOf(disk', m.all) == ImageOf(disk, m.all)
    ensures forall sectors: seq<Word> :: Stored(disk, sectors, m) <==> Stored(disk', sectors, m)
  {
    assert OnDisk(disk', m);
    forall k | 0 <= k < 140
      ensures ImageOf(disk', m.all)[k] == ImageOf(disk, m.all)[k]
    {
      assert Place(m, k) == m.all[k];
    }
    assert Place(m, INDEX) == m.index;
  }

  lemma FileFrame(disk: seq<Sector>, disk': seq<Sector>, f: Inode, m: FileMap)
    requires FileOk(disk, f, m) && SameBlocks(disk, disk', m)
    ensures FileOk(disk', f, m)
    ensures HasContents(disk, f, m) && HasContents(disk', f, m) && Contents(disk', f) == Contents(disk, f)
  {
    Frame(disk, disk', m);
    ContentsOk(disk, f, m);
    ContentsOk(disk', f, m);
  }

  /** The bytes recorded are those of the file's map. */
  ghost predicate HasContents(disk: seq<Sector>, f: Inode, m: FileMap)
    requires FileOk(disk, f, m)
  {
    && |f.sectors| == 13 && f.sectors[12] < |disk|
    && AllBlocks(disk, f.sectors) == m.all
    && (forall k :: 0 <= k < 141 ==> AllBlocks(disk, f.sectors)[k] < |disk|)
    && Contents(disk, f) == Bytes(ImageOf(disk, m.all), f.size)
  }

  lemma ContentsOk(disk: seq<Sector>, f: Inode, m: FileMap)
    requires FileOk(disk, f, m)
    ensures HasContents(disk, f, m)
  {
    Loaded(disk, f.sectors, m);
  }
}
