/** The steps from which the file operations are built, as functions on the
    state of a partition: take a block for a place in a file, write into a
    block, give a block back. */
module Volumes {
  import opened Sectors
  import opened BlockMaps
  import B = Bitmaps

  /** `disk` and `saved` are what the sectors hold: `disk` the blocks, from `base`
      on, and `saved` those of the block bitmap, which lie before them; `bits` and
      `files` what memory holds of the bitmap and of the regular files.  `own`,
      `kept` and `maps` record who took every block: a file, or a directory. */
  datatype Volume = Volume(base: nat, disk: seq<Sector>, bits: seq<bool>, saved: seq<bool>, files: map<Ino, Inode>,
                           own: map<nat, (Ino, nat)>, kept: set<nat>, maps: map<Ino, FileMap>)

  /** Every block is accounted for. */
  ghost predicate Accounted(v: Volume) {
    && |v.disk| == v.base + |v.bits| && |v.disk| <= 0x8000_0000
    && Booked(v.bits, v.base, v.own, v.kept, v.maps)
    && v.maps.Keys == v.files.Keys
  }

  /** And the bitmap on the disk is the one in memory. */
  ghost predicate Tidy(v: Volume) {
    Accounted(v) && v.saved == v.bits
  }

  ghost predicate Valid(v: Volume) {
    Tidy(v) && forall i :: i in v.files ==> FileOk(v.disk, v.files[i], v.maps[i])
  }

  lemma TidyOnDisk(v: Volume, i: Ino)
    requires Tidy(v) && i in v.files
    ensures IsMap(v.maps[i]) && OnDisk(v.disk, v.maps[i])
  {
    var m := v.maps[i];
    assert Place(m, INDEX) == m.index;
    forall k | 0 <= k < 141 ensures m.all[k] < |v.disk| { assert Place(m, k) == m.all[k]; }
  }

  /** An index sector that has not been written yet. */
  ghost predicate Stale(disk: seq<Sector>, sectors: seq<Word>, m: FileMap)
    requires IsMap(m) && OnDisk(disk, m)
  {
    sectors == m.all[..12] + [m.index] && m.index != 0 && Words(disk[m.index]) == seq(128, i => 0)
  }

  /** In the middle of a call on file `i`, which has n blocks so far. */
  ghost predicate InFlight(v: Volume, i: Ino, n: nat, stale: bool) {
    && Tidy(v) && i in v.files && Shaped(v.maps[i], n) && OnDisk(v.disk, v.maps[i])
    && (if stale then n == 13 && Stale(v.disk, v.files[i].sectors, v.maps[i])
        else Stored(v.disk, v.files[i].sectors, v.maps[i]))
  }

  function Img(v: Volume, i: Ino): (m: Image)
    requires i in v.maps && IsMap(v.maps[i]) && OnDisk(v.disk, v.maps[i])
    ensures |m| == 140
  {
    ImageOf(v.disk, v.maps[i].all)
  }

  predicate SameAt(disk: seq<Sector>, disk': seq<Sector>, m: FileMap, k: nat) {
    IsMap(m) && k <= INDEX && 0 < Place(m, k) < |disk| && Place(m, k) < |disk'| ==>
      disk'[Place(m, k)] == disk[Place(m, k)]
  }

  /** A directory's sector. */
  predicate SameFixed(kept: set<nat>, disk: seq<Sector>, disk': seq<Sector>, b: nat) {
    b in kept && b < |disk| && b < |disk'| ==> disk'[b] == disk[b]
  }

  /** Other files' blocks and index sectors hold what they held, and so do the
      directories' blocks. */
  ghost predicate OthersSame(v: Volume, u: Volume, i: Ino) {
    && u.base == v.base && u.kept == v.kept
    && (forall j, k: nat :: j in v.maps && j != i ==> SameAt(v.disk, u.disk, v.maps[j], k))
    && (forall b: nat :: SameFixed(v.kept, v.disk, u.disk, b))
  }

  ghost predicate Keeps(m: FileMap, m': FileMap) {
    IsMap(m) && IsMap(m') && forall k: nat :: k <= INDEX && Place(m, k) != 0 ==> Place(m', k) == Place(m, k)
  }

  /** From `v` to `u` only file `i` has changed: it has kept its blocks and
      taken `cnt` more. */
  ghost predicate Extended(v: Volume, u: Volume, i: Ino, cnt: nat) {
    && u.base == v.base && |u.disk| == |v.disk| && |u.bits| == |v.bits|
    && i in v.files && i in u.files && i in v.maps && i in u.maps
    && u.files == v.files[i := u.files[i]] && u.files[i].size == v.files[i].size
    && u.maps == v.maps[i := u.maps[i]] && Keeps(v.maps[i], u.maps[i])
    && OthersSame(v, u, i)
    && B.CountFree(u.bits) + cnt == B.CountFree(v.bits)
  }

  lemma FixedTwice(v: Volume, u: Volume, w: Volume)
    requires u.base == v.base && u.kept == v.kept && |u.disk| == |v.disk| == |w.disk|
    requires forall b: nat :: SameFixed(v.kept, v.disk, u.disk, b)
    requires forall b: nat :: SameFixed(u.kept, u.disk, w.disk, b)
    ensures forall b: nat :: SameFixed(v.kept, v.disk, w.disk, b)
  {
    forall b: nat
      ensures SameFixed(v.kept, v.disk, w.disk, b)
    {
      assert SameFixed(v.kept, v.disk, u.disk, b) && SameFixed(u.kept, u.disk, w.disk, b);
    }
  }

  lemma ExtendedTwice(v: Volume, u: Volume, w: Volume, i: Ino, c: nat, d: nat)
    requires Extended(v, u, i, c) && Extended(u, w, i, d)
    ensures Extended(v, w, i, c + d)
  {
    forall k: nat | k <= INDEX && Place(v.maps[i], k) != 0
      ensures Place(w.maps[i], k) == Place(v.maps[i], k)
    {
      assert Place(u.maps[i], k) == Place(v.maps[i], k);
    }
    forall j, k: nat | j in v.maps && j != i
      ensures SameAt(v.disk, w.disk, v.maps[j], k)
    {
      assert u.maps[j] == v.maps[j];
      assert SameAt(v.disk, u.disk, v.maps[j], k) && SameAt(u.disk, w.disk, u.maps[j], k);
    }
    FixedTwice(v, u, w);
  }

  // ---------- Taking a block ----------

  function FreeBlock(v: Volume): (b: Word)
    requires |v.disk| == v.base + |v.bits| && |v.disk| <= 0x8000_0000 && B.CountFree(v.bits) > 0
    ensures v.base <= b < |v.disk| && !v.bits[b - v.base] && forall x :: 0 <= x < b - v.base ==> v.bits[x]
  {
    B.FullIffNoneFree(v.bits);
    v.base + B.FirstFree(v.bits)
  }

  ghost predicate Claimable(v: Volume, i: Ino, k: nat) {
    && Accounted(v) && i in v.files && k <= INDEX && IsMap(v.maps[i]) && Place(v.maps[i], k) == 0
    && B.CountFree(v.bits) > 0
  }

  /** What block_bitmap_alloc does, for place `k` of file `i`. */
  ghost predicate Claimed(v: Volume, u: Volume, i: Ino, k: nat, b: Word) {
    && Accounted(u) && i in v.maps && IsMap(v.maps[i]) && k <= INDEX
    && 0 < v.base <= b < |v.disk| == v.base + |v.bits| && b !in v.own && b !in v.kept
    && u == v.(bits := v.bits[b - v.base := true], own := v.own[b := (i, k)], maps := v.maps[i := SetPlace(v.maps[i], k, b)])
    && B.CountFree(u.bits) + 1 == B.CountFree(v.bits)
  }

  lemma ClaimStep(v: Volume, i: Ino, k: nat)
    requires Claimable(v, i, k)
    ensures var b := FreeBlock(v);
            Claimed(v, v.(bits := v.bits[b - v.base := true], own := v.own[b := (i, k)],
                          maps := v.maps[i := SetPlace(v.maps[i], k, b)]), i, k, b)
  {
    var b := FreeBlock(v);
    AddBlock(v.bits, v.base, v.own, v.kept, v.maps, i, k, b);
    B.CountFreeUpdate(v.bits, b - v.base);
  }

  /** bitmap_sync writes the 4096 bits of one sector. */
  function Synced(saved: seq<bool>, bits: seq<bool>, at: nat): (s: seq<bool>)
    requires |saved| == |bits|
    ensures |s| == |bits|
    ensures forall b :: 0 <= b < |bits| ==> s[b] == if b / 4096 == at / 4096 then bits[b] else saved[b]
  {
    seq(|bits|, b requires 0 <= b < |bits| => if b / 4096 == at / 4096 then bits[b] else saved[b])
  }

  /** The copy of that sector, or of what there is of the last one. */
  lemma SyncedSector(saved: seq<bool>, bits: seq<bool>, at: nat)
    requires |saved| == |bits| && at < |bits|
    ensures var from := at / 4096 * 4096;
            var to := if from + 4096 <= |bits| then from + 4096 else |bits|;
            from <= to && Synced(saved, bits, at) == saved[..from] + bits[from..to] + saved[to..]
  {
    var from := at / 4096 * 4096;
    var to := if from + 4096 <= |bits| then from + 4096 else |bits|;
    var copy := saved[..from] + bits[from..to] + saved[to..];
    assert from <= to <= |bits| && |copy| == |bits|;
    forall x | 0 <= x < |bits|
      ensures Synced(saved, bits, at)[x] == copy[x]
    {
      InSector(x, at / 4096);
      if x < from {
        assert copy[x] == saved[x];
      } else if x < to {
        assert copy[x] == bits[from..to][x - from] == bits[x];
      } else {
        assert copy[x] == saved[to..][x - to] == saved[x];
      }
    }
  }

  lemma InSector(x: nat, sector: nat)
    ensures x / 4096 == sector <==> sector * 4096 <= x < sector * 4096 + 4096
  {}

  lemma SyncedOnce(bits: seq<bool>, a: nat, x: bool)
    requires a < |bits|
    ensures Synced(bits, bits[a := x], a) == bits[a := x]
  {}

  /** With two blocks taken the bitmap may be saved afterwards. */
  lemma SyncedTwice(bits: seq<bool>, a: nat, b: nat)
    requires a < |bits| && b < |bits|
    ensures var c := bits[a := true][b := true];
            Synced(Synced(bits, c, a), c, b) == c
  {}

  function Sync(v: Volume, b: Word): Volume
    requires |v.saved| == |v.bits| && v.base <= b
  {
    v.(saved := Synced(v.saved, v.bits, b - v.base))
  }

  function Write(v: Volume, b: Word, s: Sector): Volume
    requires b < |v.disk|
  {
    v.(disk := v.disk[b := s])
  }

  function SetSector(v: Volume, i: Ino, k: nat, b: Word): Volume
    requires i in v.files && k < |v.files[i].sectors|
  {
    v.(files := v.files[i := v.files[i].(sectors := v.files[i].sectors[k := b])])
  }

  /** A block of a file can be written. */
  lemma WriteOthers(v: Volume, i: Ino, b: Word, s: Sector)
    requires Tidy(v) && i in v.files && b < |v.disk|
    requires b in v.own && v.own[b].0 == i
    ensures Tidy(Write(v, b, s)) && OthersSame(v, Write(v, b, s), i)
  {}

  lemma NewBlockImage(disk: seq<Sector>, disk': seq<Sector>, m: FileMap, k: nat, b: Word)
    requires IsMap(m) && OnDisk(disk, m) && |disk'| == |disk| && b < |disk| && k < 141 && m.all[k] == 0
    requires disk'[b] == ZERO
    requires forall x :: 0 <= x < 140 && m.all[x] != 0 ==> disk'[m.all[x]] == disk[m.all[x]]
    ensures OnDisk(disk', SetPlace(m, k, b))
    ensures ImageOf(disk', SetPlace(m, k, b).all) == ImageOf(disk, m.all)
  {}

  lemma Unowned(v: Volume, b: Word, j: Ino, k: nat)
    requires Tidy(v) && b !in v.own && j in v.maps && k <= INDEX && b != 0
    ensures IsMap(v.maps[j]) && Place(v.maps[j], k) != b
  {}

  /** Writing a block just taken disturbs no file. */
  lemma WriteNew(v: Volume, b: Word, s: Sector, i: Ino)
    requires Tidy(v) && v.base <= b < |v.disk| && b !in v.own && b !in v.kept && i in v.files
    ensures OthersSame(v, Write(v, b, s), i)
    ensures forall k: nat :: k <= INDEX ==> IsMap(v.maps[i]) && Place(v.maps[i], k) != b
  {
    forall j, k: nat | j in v.maps && k <= INDEX
      ensures IsMap(v.maps[j]) && Place(v.maps[j], k) != b
    {
      Unowned(v, b, j, k);
    }
  }

  /** The three ways in which file_write takes a block: for the inode, */
  function Direct(u: Volume, i: Ino, k: nat, b: Word): Volume
    requires i in u.files && k < |u.files[i].sectors| && u.base <= b < |u.disk| && |u.saved| == |u.bits|
  {
    Sync(Write(SetSector(u, i, k, b), b, ZERO), b)
  }

  lemma DirectKeeps(v: Volume, u: Volume, i: Ino, k: nat, b: Word)
    requires InFlight(v, i, k, false) && k < 12 && Claimed(v, u, i, k, b)
    ensures |u.files[i].sectors| == 13
    ensures InFlight(Direct(u, i, k, b), i, k + 1, false) && Extended(v, Direct(u, i, k, b), i, 1)
    ensures Img(Direct(u, i, k, b), i) == Img(v, i)
  {
    WriteNew(v, b, ZERO, i);
    SyncedOnce(v.bits, b - v.base, true);
    var w := Direct(u, i, k, b);
    forall x | 0 <= x < 141 ensures v.maps[i].all[x] != b { assert Place(v.maps[i], x) != b; }
    NewBlockImage(v.disk, w.disk, v.maps[i], k, b);
    assert w.files[i].sectors == w.maps[i].all[..12] + [w.maps[i].index];
  }

  lemma SameTwice(v: Volume, w: Volume, u: Volume, i: Ino)
    requires OthersSame(v, w, i) && OthersSame(w, u, i) && w.maps == v.maps && |w.disk| == |v.disk| == |u.disk|
    ensures OthersSame(v, u, i)
  {
    forall j, x: nat | j in v.maps && j != i
      ensures SameAt(v.disk, u.disk, v.maps[j], x)
    {
      assert SameAt(v.disk, w.disk, v.maps[j], x) && SameAt(w.disk, u.disk, v.maps[j], x);
    }
    FixedTwice(v, w, u);
  }

  /** No place of a file holds the number of another place of it. */
  lemma PlacesDiffer(v: Volume, i: Ino, k: nat, x: nat)
    requires Tidy(v) && i in v.files && IsMap(v.maps[i]) && k <= INDEX && x <= INDEX && k != x
    requires Place(v.maps[i], x) != 0
    ensures Place(v.maps[i], x) != Place(v.maps[i], k)
  {
    assert v.own[Place(v.maps[i], x)] == (i, x);
  }

  /** Writing the index sector and clearing a new block disturbs nothing else. */
  lemma IndexWritten(v: Volume, i: Ino, b: Word, table: Sector)
    requires Tidy(v) && i in v.files && IsMap(v.maps[i]) && OnDisk(v.disk, v.maps[i]) && v.maps[i].index != 0
    requires v.base <= b < |v.disk| && b !in v.own && b !in v.kept
    ensures OthersSame(v, Write(Write(v, v.maps[i].index, table), b, ZERO), i) && v.maps[i].index != b
    ensures forall x :: 0 <= x < 141 && v.maps[i].all[x] != 0 ==>
              v.maps[i].all[x] != b && v.maps[i].all[x] != v.maps[i].index
  {
    var m := v.maps[i];
    assert Place(m, INDEX) == m.index;
    assert m.index in v.own && v.own[m.index] == (i, INDEX);
    WriteOthers(v, i, m.index, table);
    var w := Write(v, m.index, table);
    WriteNew(w, b, ZERO, i);
    SameTwice(v, w, Write(w, b, ZERO), i);
    forall x | 0 <= x < 141 && m.all[x] != 0
      ensures m.all[x] != b && m.all[x] != m.index
    {
      assert Place(m, x) == m.all[x];
      PlacesDiffer(v, i, INDEX, x);
    }
  }

  lemma IndirectStored(disk: seq<Sector>, sectors: seq<Word>, m: FileMap, k: nat, b: Word, disk': seq<Sector>)
    requires IsMap(m) && OnDisk(disk, m) && m.index != 0 && 12 < k <= 140 && m.all[k] == 0 && m.index != b
    requires sectors == m.all[..12] + [m.index] && 0 < b < |disk| == |disk'|
    requires disk' == disk[m.index := Packed(SetPlace(m, k, b).all[12..140])][b := ZERO]
    requires forall x :: 0 <= x < 141 && m.all[x] != 0 ==> m.all[x] != b && m.all[x] != m.index
    ensures OnDisk(disk', SetPlace(m, k, b)) && Stored(disk', sectors, SetPlace(m, k, b))
    ensures ImageOf(disk', SetPlace(m, k, b).all) == ImageOf(disk, m.all)
  {
    WordsOfPacked(SetPlace(m, k, b).all[12..140]);
    NewBlockImage(disk, disk', m, k, b);
    assert SetPlace(m, k, b).all[..12] == m.all[..12];
  }

  /** for the index sector, */
  function Indirect(u: Volume, i: Ino, b: Word, secondary: Word): Volume
    requires i in u.maps && IsMap(u.maps[i]) && u.base <= b < |u.disk| && secondary < |u.disk| && |u.saved| == |u.bits|
  {
    Sync(Write(Write(u, secondary, Packed(u.maps[i].all[12..140])), b, ZERO), b)
  }

  lemma IndirectKeeps(v: Volume, u: Volume, i: Ino, k: nat, stale: bool, b: Word)
    requires InFlight(v, i, k, stale) && 12 < k <= 140 && Claimed(v, u, i, k, b)
    ensures InFlight(Indirect(u, i, b, v.maps[i].index), i, k + 1, false)
    ensures Extended(v, Indirect(u, i, b, v.maps[i].index), i, 1)
    ensures Img(Indirect(u, i, b, v.maps[i].index), i) == Img(v, i)
  {
    var m := v.maps[i];
    var w := Indirect(u, i, b, m.index);
    IndirectIs(v, u, i, k, stale, b);
    IndirectExtends(v, u, w, i, k, b);
    IndirectStored(v.disk, v.files[i].sectors, m, k, b, w.disk);
  }

  lemma IndirectIs(v: Volume, u: Volume, i: Ino, k: nat, stale: bool, b: Word)
    requires InFlight(v, i, k, stale) && 12 < k <= 140 && Claimed(v, u, i, k, b)
    ensures var m := v.maps[i];
            var w := Indirect(u, i, b, m.index);
            && w == u.(disk := v.disk[m.index := Packed(SetPlace(m, k, b).all[12..140])][b := ZERO], saved := u.bits)
            && OthersSame(v, w, i) && m.index != b
            && forall x :: 0 <= x < 141 && m.all[x] != 0 ==> m.all[x] != b && m.all[x] != m.index
  {
    IndexWritten(v, i, b, Packed(SetPlace(v.maps[i], k, b).all[12..140]));
    SyncedOnce(v.bits, b - v.base, true);
  }

  lemma IndirectExtends(v: Volume, u: Volume, w: Volume, i: Ino, k: nat, b: Word)
    requires Tidy(v) && i in v.files && Claimed(v, u, i, k, b) && Place(v.maps[i], k) == 0
    requires w == u.(disk := w.disk, saved := u.bits) && |w.disk| == |v.disk| && OthersSame(v, w, i)
    ensures Tidy(w) && Extended(v, w, i, 1)
  {}

  /** and for block 12, which takes two: it is the second that is written as an
      index sector and the first that is cleared, whichever way round they are
      entered in the map. */
  function First(s: Volume, i: Ino, b1: Word, b2: Word): Volume
    requires i in s.maps && IsMap(s.maps[i]) && s.base <= b1 < |s.disk| && s.base <= b2 < |s.disk|
    requires i in s.files && |s.files[i].sectors| == 13 && |s.saved| == |s.bits|
  {
    Sync(Sync(SetSector(Write(Write(s, b2, Packed(s.maps[i].all[12..140])), b1, ZERO), i, 12, s.maps[i].index), b1), b2)
  }

  /** The writes touch only new blocks. */
  lemma FirstDisk(v: Volume, i: Ino, b1: Word, b2: Word, table: Sector)
    requires Tidy(v) && i in v.files && IsMap(v.maps[i])
    requires v.base <= b1 < |v.disk| && v.base <= b2 < |v.disk|
    requires b1 !in v.own && b2 !in v.own && b1 !in v.kept && b2 !in v.kept
    ensures OthersSame(v, Write(Write(v, b2, table), b1, ZERO), i)
    ensures forall x :: 0 <= x < 141 ==> v.maps[i].all[x] != b1 && v.maps[i].all[x] != b2
  {
    WriteNew(v, b2, table, i);
    WriteNew(Write(v, b2, table), b1, ZERO, i);
    SameTwice(v, Write(v, b2, table), Write(Write(v, b2, table), b1, ZERO), i);
    forall x | 0 <= x < 141
      ensures v.maps[i].all[x] != b1 && v.maps[i].all[x] != b2
    {
      assert Place(v.maps[i], x) == v.maps[i].all[x];
    }
  }

  /** The two blocks taken, for the file and for its index sector. */
  ghost predicate TwoTaken(v: Volume, s: Volume, i: Ino, data: Word, index: Word) {
    && Tidy(v) && Accounted(s) && |s.bits| == |v.bits|
    && v.base <= data < |v.disk| && v.base <= index < |v.disk| && data != index
    && data !in v.own && index !in v.own && data !in v.kept && index !in v.kept
    && i in v.maps && IsMap(v.maps[i])
    && s == v.(bits := s.bits, own := s.own, maps := v.maps[i := FileMap(v.maps[i].all[12 := data], index)])
    && B.CountFree(s.bits) + 2 == B.CountFree(v.bits)
  }

  /** In the order they were taken: the file's block first, or the index sector. */
  ghost predicate TwoInOrder(v: Volume, s: Volume, i: Ino, dataFirst: bool, b1: Word, b2: Word) {
    && TwoTaken(v, s, i, if dataFirst then b1 else b2, if dataFirst then b2 else b1)
    && s.bits == v.bits[b1 - v.base := true][b2 - v.base := true]
  }

  lemma RoomForTwo(v: Volume, i: Ino)
    requires InFlight(v, i, 12, false) && B.CountFree(v.bits) > 1
    ensures Claimable(v, i, 12) && Claimable(v, i, INDEX)
  {
    assert Place(v.maps[i], 12) == 0 && Place(v.maps[i], INDEX) == 0;
  }

  lemma MapsTwice(maps: map<Ino, FileMap>, i: Ino, p: nat, q: nat, b1: Word, b2: Word)
    requires i in maps && IsMap(maps[i]) && ((p == 12 && q == INDEX) || (p == INDEX && q == 12))
    ensures var one := maps[i := SetPlace(maps[i], p, b1)];
            one[i := SetPlace(one[i], q, b2)] ==
            maps[i := FileMap(maps[i].all[12 := if p == 12 then b1 else b2], if p == 12 then b2 else b1)]
  {}

  lemma ClaimedTwice(v: Volume, u: Volume, s: Volume, i: Ino, p: nat, q: nat, b1: Word, b2: Word)
    requires Tidy(v) && Claimed(v, u, i, p, b1) && Claimed(u, s, i, q, b2)
    requires (p == 12 && q == INDEX) || (p == INDEX && q == 12)
    ensures TwoInOrder(v, s, i, p == 12, b1, b2)
  {
    MapsTwice(v.maps, i, p, q, b1, b2);
  }

  /** The inode and the index sector after block 12 has been entered. */
  lemma FirstStored(disk: seq<Sector>, sectors: seq<Word>, m: FileMap, data: Word, index: Word, disk': seq<Sector>)
    requires Shaped(m, 12) && OnDisk(disk, m) && Stored(disk, sectors, m)
    requires 0 < data < |disk| == |disk'| && 0 < index < |disk|
    ensures |sectors| == 13
    ensures var m' := FileMap(m.all[12 := data], index);
            && Shaped(m', 13) && OnDisk(disk', m') && sectors[12 := index] == m'.all[..12] + [index]
            && (disk'[index] == Packed(m'.all[12..140]) ==> Stored(disk', sectors[12 := index], m'))
            && (disk'[index] == ZERO ==> Stale(disk', sectors[12 := index], m'))
  {
    var m' := FileMap(m.all[12 := data], index);
    WordsOfPacked(m'.all[12..140]);
    WordsOfZero();
    assert sectors[12 := index] == m'.all[..12] + [index];
  }

  lemma FirstIs(v: Volume, s: Volume, i: Ino, b1: Word, b2: Word)
    requires InFlight(v, i, 12, false) && (TwoTaken(v, s, i, b1, b2) || TwoTaken(v, s, i, b2, b1))
    requires s.bits == v.bits[b1 - v.base := true][b2 - v.base := true]
    ensures |s.files[i].sectors| == 13
    ensures First(s, i, b1, b2) ==
            s.(disk := v.disk[b2 := Packed(s.maps[i].all[12..140])][b1 := ZERO], saved := s.bits,
               files := v.files[i := v.files[i].(sectors := v.files[i].sectors[12 := s.maps[i].index])])
  {
    SyncedTwice(v.bits, b1 - v.base, b2 - v.base);
    FirstWrites(v, s, i, b1, b2);
  }

  lemma FirstWrites(v: Volume, s: Volume, i: Ino, b1: Word, b2: Word)
    requires i in v.files && |v.files[i].sectors| == 13 && i in s.maps && IsMap(s.maps[i])
    requires v.base <= b1 < |v.disk| && v.base <= b2 < |v.disk| && |v.saved| == |s.bits|
    requires s == v.(bits := s.bits, own := s.own, maps := s.maps)
    requires Synced(Synced(v.saved, s.bits, b1 - v.base), s.bits, b2 - v.base) == s.bits
    ensures First(s, i, b1, b2) ==
            s.(disk := v.disk[b2 := Packed(s.maps[i].all[12..140])][b1 := ZERO], saved := s.bits,
               files := v.files[i := v.files[i].(sectors := v.files[i].sectors[12 := s.maps[i].index])])
  {}

  /** The state after block 12 has been entered, in terms of what the index
      sector reads. */
  ghost predicate Entered(v: Volume, s: Volume, w: Volume, i: Ino, data: Word, index: Word, stale: bool) {
    && TwoTaken(v, s, i, data, index) && OthersSame(v, w, i)
    && i in v.files && |v.files[i].sectors| == 13 && |w.disk| == |v.disk|
    && w == s.(disk := w.disk, saved := s.bits,
               files := v.files[i := v.files[i].(sectors := v.files[i].sectors[12 := index])])
    && w.disk[index] == if stale then ZERO else Packed(s.maps[i].all[12..140])
  }

  lemma EnteredKeeps(v: Volume, s: Volume, w: Volume, i: Ino, data: Word, index: Word, stale: bool)
    requires InFlight(v, i, 12, false) && Entered(v, s, w, i, data, index, stale)
    ensures InFlight(w, i, 13, stale)
  {
    EnteredTidy(v, s, w, i, data, index, stale);
    var m := FileMap(v.maps[i].all[12 := data], index);
    assert w.maps[i] == m && w.files[i].sectors == v.files[i].sectors[12 := index];
    FirstStored(v.disk, v.files[i].sectors, v.maps[i], data, index, w.disk);
  }

  lemma EnteredTidy(v: Volume, s: Volume, w: Volume, i: Ino, data: Word, index: Word, stale: bool)
    requires Tidy(v) && Entered(v, s, w, i, data, index, stale)
    ensures Tidy(w) && 0 < data && 0 < index
  {}

  lemma EnteredExtends(v: Volume, s: Volume, w: Volume, i: Ino, data: Word, index: Word, stale: bool)
    requires InFlight(v, i, 12, false) && Entered(v, s, w, i, data, index, stale)
    ensures Extended(v, w, i, 2)
  {}

  lemma FirstKeeps(v: Volume, s: Volume, i: Ino, b1: Word, b2: Word)
    requires InFlight(v, i, 12, false) && TwoTaken(v, s, i, b1, b2)
    requires s.bits == v.bits[b1 - v.base := true][b2 - v.base := true]
    ensures |s.files[i].sectors| == 13
    ensures InFlight(First(s, i, b1, b2), i, 13, false) && Extended(v, First(s, i, b1, b2), i, 2)
    ensures Img(First(s, i, b1, b2), i) == Img(v, i)
  {
    FirstIs(v, s, i, b1, b2);
    var w := First(s, i, b1, b2);
    FirstDisk(v, i, b1, b2, Packed(s.maps[i].all[12..140]));
    EnteredKeeps(v, s, w, i, b1, b2, false);
    EnteredExtends(v, s, w, i, b1, b2, false);
    NewBlockImage(v.disk, w.disk, v.maps[i], 12, b1);
  }

  /** Block 12 and the index sector are in the map, but not on the disk; all other
      blocks read as before. */
  ghost predicate EnteredSwapped(v: Volume, u: Volume, i: Ino) {
    && InFlight(v, i, 12, false) && InFlight(u, i, 13, true) && Extended(v, u, i, 2)
    && forall x :: 0 <= x < 140 && x != 12 ==> Img(u, i)[x] == Img(v, i)[x]
  }

  /** Swapped, the map in memory is right, but the index sector on the disk is
      empty, and the new block does not read as zeros. */
  lemma SwappedKeeps(v: Volume, s: Volume, i: Ino, b1: Word, b2: Word)
    requires InFlight(v, i, 12, false) && TwoTaken(v, s, i, b2, b1)
    requires s.bits == v.bits[b1 - v.base := true][b2 - v.base := true]
    ensures |s.files[i].sectors| == 13
    ensures EnteredSwapped(v, First(s, i, b1, b2), i)
  {
    FirstIs(v, s, i, b1, b2);
    FirstDisk(v, i, b1, b2, Packed(s.maps[i].all[12..140]));
    EnteredKeeps(v, s, First(s, i, b1, b2), i, b2, b1, true);
    EnteredExtends(v, s, First(s, i, b1, b2), i, b2, b1, true);
  }

  // ---------- Writing into a block ----------

  /** Read a block, change some of its bytes, write it back. */
  function Put(v: Volume, i: Ino, k: nat, at: nat, bytes: seq<Byte>): Volume
    requires i in v.maps && IsMap(v.maps[i]) && k < 140 && v.maps[i].all[k] < |v.disk| && at + |bytes| <= 512
  {
    Write(v, v.maps[i].all[k], Patch(v.disk[v.maps[i].all[k]], at, bytes))
  }

  lemma PutDisk(v: Volume, i: Ino, k: nat, s: Sector)
    requires Tidy(v) && i in v.files && IsMap(v.maps[i]) && OnDisk(v.disk, v.maps[i]) && k < 140
    requires v.maps[i].all[k] != 0
    ensures var u := Write(v, v.maps[i].all[k], s);
            Tidy(u) && OthersSame(v, u, i) && Img(u, i) == Img(v, i)[k := s]
            && v.maps[i].index != v.maps[i].all[k]
  {
    var m := v.maps[i];
    assert Place(m, k) == m.all[k] && Place(m, INDEX) == m.index;
    assert v.own[m.all[k]] == (i, k);
    WriteOthers(v, i, m.all[k], s);
    PlacesDiffer(v, i, INDEX, k);
    forall x | 0 <= x < 140 && x != k && m.all[x] != 0
      ensures m.all[x] != m.all[k]
    {
      assert Place(m, x) == m.all[x];
      PlacesDiffer(v, i, k, x);
    }
  }

  /** Some bytes of block k have changed, and nothing else. */
  ghost predicate BlockPut(v: Volume, u: Volume, i: Ino, n: nat, stale: bool, k: nat, at: nat, bytes: seq<Byte>) {
    && InFlight(v, i, n, stale) && InFlight(u, i, n, stale) && Extended(v, u, i, 0)
    && PutIn(Img(v, i), Img(u, i), k, at, bytes)
  }

  lemma PutKeeps(v: Volume, i: Ino, n: nat, stale: bool, k: nat, at: nat, bytes: seq<Byte>)
    requires InFlight(v, i, n, stale) && k < n && k < 140 && at + |bytes| <= 512
    ensures BlockPut(v, Put(v, i, k, at, bytes), i, n, stale, k, at, bytes)
  {
    PutDisk(v, i, k, Patch(v.disk[v.maps[i].all[k]], at, bytes));
  }

  // ---------- Giving blocks back ----------

  /** block_bitmap_dealloc and bitmap_sync, for place `k` of file `i`. */
  function Free(v: Volume, i: Ino, k: nat): Volume
    requires i in v.maps && IsMap(v.maps[i]) && k <= INDEX && v.base <= Place(v.maps[i], k) < v.base + |v.bits|
    requires |v.saved| == |v.bits|
  {
    var b := Place(v.maps[i], k);
    Sync(v.(bits := v.bits[b - v.base := false], own := v.own - {b}, maps := v.maps[i := SetPlace(v.maps[i], k, 0)]), b)
  }

  lemma FreeKeeps(v: Volume, i: Ino, k: nat)
    requires Tidy(v) && i in v.files && IsMap(v.maps[i]) && k <= INDEX && Place(v.maps[i], k) != 0
    ensures v.base < Place(v.maps[i], k) < v.base + |v.bits|
    ensures Tidy(Free(v, i, k))
  {
    RemoveBlock(v.bits, v.base, v.own, v.kept, v.maps, i, k);
    var b := Place(v.maps[i], k);
    SyncedOnce(v.bits, b - v.base, false);
    FreeIs(v, i, k, b, v.bits[b - v.base := false]);
  }

  lemma FreeIs(v: Volume, i: Ino, k: nat, b: nat, bits: seq<bool>)
    requires i in v.maps && IsMap(v.maps[i]) && k <= INDEX && b == Place(v.maps[i], k) && v.base <= b < v.base + |v.bits|
    requires |v.saved| == |v.bits| && bits == v.bits[b - v.base := false] && Synced(v.saved, bits, b - v.base) == bits
    requires Accounted(v) && Booked(bits, v.base, v.own - {b}, v.kept, v.maps[i := SetPlace(v.maps[i], k, 0)])
    ensures Tidy(Free(v, i, k))
  {}

  lemma FreeBits(v: Volume, i: Ino, k: nat)
    requires Tidy(v) && i in v.files && IsMap(v.maps[i]) && k <= INDEX && Place(v.maps[i], k) != 0
    ensures var b := Place(v.maps[i], k);
            && v.base < b < v.base + |v.bits| && v.bits[b - v.base]
            && Free(v, i, k).bits == v.bits[b - v.base := false]
  {
    RemoveBlock(v.bits, v.base, v.own, v.kept, v.maps, i, k);
  }

  lemma FreeCounts(v: Volume, i: Ino, k: nat)
    requires Tidy(v) && i in v.files && IsMap(v.maps[i]) && k <= INDEX && Place(v.maps[i], k) != 0
    ensures v.base < Place(v.maps[i], k) < v.base + |v.bits|
    ensures B.CountFree(Free(v, i, k).bits) == B.CountFree(v.bits) + 1
  {
    FreeBits(v, i, k);
    B.CountFreeUpdate(v.bits, Place(v.maps[i], k) - v.base);
  }
}
